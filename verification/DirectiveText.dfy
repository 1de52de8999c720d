/** Directives as they are written, and how a line of text is told to be one. */
module DirectiveText {
  import opened Syntax
  import opened Seqs
  import opened Chars
  import opened Macros
  import opened Directives

  /** Spaces and tabs. */
  predicate Gap(b: string) {
    forall k :: 0 <= k < |b| ==> b[k] == ' ' || b[k] == '\t'
  }

  /** The gaps of a directive: before its `#`, before its keyword, and after it. */
  datatype Gaps = Gaps(before: string, inside: string, after: string)

  predicate GapsOk(g: Gaps) {
    Gap(g.before) && Gap(g.inside) && Gap(g.after)
  }

  /** A line with a `#`, a keyword and the rest. */
  function Hash(g: Gaps, keyword: string, rest: string): string {
    g.before + ("#" + (g.inside + (keyword + (g.after + rest))))
  }

  /** Nothing that would join the word before it. */
  predicate Apart(s: string) {
    s == "" || !IsIdCont(s[0])
  }

  /** Nothing, or something that is not blank. */
  predicate Starts(s: string) {
    s == "" || !IsBlank(s[0])
  }

  // ------------------------------------------------------------------ reading

  lemma GapSkipped(s: string, i: nat, gap: string, rest: string)
    requires i <= |s| && s[i..] == gap + rest && Gap(gap) && Starts(rest)
    ensures SkipBlanks(s, i) == i + |gap|
  {
    DroppedChars(s, i, gap, rest);
    SkipEnds(s, i, i + |gap|);
  }

  lemma {:induction false} SkipEnds(s: string, i: nat, j: nat)
    requires i <= j <= |s| && (forall k :: i <= k < j ==> IsBlank(s[k])) && (j < |s| ==> !IsBlank(s[j]))
    ensures SkipBlanks(s, i) == j
    decreases j - i
  {
    if i < j { SkipEnds(s, i + 1, j); }
  }

  /** A word of identifier characters that fits is read whole. */
  lemma WordRead(s: string, i: nat, w: string, rest: string, max: nat)
    requires i <= |s| && s[i..] == w + rest && (forall k :: 0 <= k < |w| ==> IsIdCont(w[k]))
    requires Apart(rest) && |w| <= max
    ensures WordEndWithin(s, i, max) == i + |w| && s[i..i + |w|] == w
  {
    Dropped(s, i, w, rest);
    DroppedChars(s, i, w, rest);
    WordEndAt(s, i, i + |w|);
  }

  /** A longer one is cut. */
  lemma WordCut(s: string, i: nat, w: string, rest: string, max: nat)
    requires i <= |s| && s[i..] == w + rest && (forall k :: 0 <= k < |w| ==> IsIdCont(w[k])) && Apart(rest) && |w| > max
    ensures WordEndWithin(s, i, max) == i + max && s[i..i + max] == w[..max]
  {
    Dropped(s, i, w, rest);
    DroppedChars(s, i, w, rest);
    WordEndAt(s, i, i + |w|);
    assert s[i..i + max] == s[i..i + |w|][..max];
  }

  /** Identifier characters, up to as many as a keyword may have. */
  predicate IsKeyword(w: string) {
    w != "" && |w| <= 31 && forall k :: 0 <= k < |w| ==> IsIdCont(w[k])
  }

  lemma NoBlankInside(w: string, rest: string)
    requires IsKeyword(w)
    ensures Starts(w + rest)
  {
  }

  /** Where the word after the `#` of a line starts. */
  lemma HashFound(g: Gaps, word: string, rest: string) returns (line: string, p: nat, q: nat)
    requires GapsOk(g) && Starts(word + (g.after + rest))
    ensures line == Hash(g, word, rest) && p == SkipBlanks(line, 0) < |line| && line[p] == '#'
    ensures line[p + 1..] == g.inside + (word + (g.after + rest))
    ensures q == SkipBlanks(line, p + 1) && line[q..] == word + (g.after + rest)
  {
    hide SkipBlanks, Starts, Gap, Hash;
    line, p, q := Hash(g, word, rest), |g.before|, |g.before| + 1 + |g.inside|;
    var tail := word + (g.after + rest);
    HashStarts(g.inside + tail);
    HashParts(g, word, rest);
    GapSkipped(line, 0, g.before, "#" + (g.inside + tail));
    GapSkipped(line, p + 1, g.inside, tail);
    Dropped(line, p + 1, g.inside, tail);
  }

  lemma HashStarts(rest: string)
    ensures Starts("#" + rest)
  {
  }

  lemma HashParts(g: Gaps, keyword: string, rest: string)
    ensures var line := Hash(g, keyword, rest);
      var tail := keyword + (g.after + rest);
      var p := |g.before|;
      && line[0..] == g.before + ("#" + (g.inside + tail)) && p < |line| && line[p] == '#'
      && line[p + 1..] == g.inside + tail
  {
    var line := Hash(g, keyword, rest);
    var inner := g.inside + (keyword + (g.after + rest));
    assert line[0..] == line;
    Dropped(line, 0, g.before, "#" + inner);
    Dropped(line, |g.before|, "#", inner);
  }

  lemma KeywordRead(line: string, q: nat, keyword: string, after: string, rest: string) returns (e: nat)
    requires q <= |line| && line[q..] == keyword + (after + rest) && IsKeyword(keyword)
    requires Gap(after) && Apart(after + rest) && Starts(rest)
    ensures e == WordEndWithin(line, q, KEYWORD_MAX) <= |line| && line[q..e] == keyword
    ensures line[SkipBlanks(line, e)..] == rest
  {
    hide SkipBlanks, WordEndWithin, IsKeyword, IsIdCont, Starts, Apart, Gap;
    KeywordChars(keyword);
    WordRead(line, q, keyword, after + rest, KEYWORD_MAX);
    Dropped(line, q, keyword, after + rest);
    e := q + |keyword|;
    BodyRead(line, e, after, rest);
  }

  lemma KeywordChars(w: string)
    requires IsKeyword(w)
    ensures |w| <= KEYWORD_MAX && forall k :: 0 <= k < |w| ==> IsIdCont(w[k])
  {
  }

  // ------------------------------------------------------------------ definitions

  /** A parameter: blanks, its name, and a comma after more blanks, if it has one. */
  datatype Param = Param(before: string, name: string, comma: Option<string>)

  /** How a list of parameters ends: at a `)`, or where no name and no `)` stands.  After it
      comes the body. */
  datatype ListEnd = Closed(gap: string, last: string, body: string) | Broken(gap: string, body: string)

  datatype Definition =
    | ObjectLike(name: string, gap: string, body: string)
    | FunctionLike(name: string, params: seq<Param>, end: ListEnd)

  function CommaText(comma: Option<string>): string {
    if comma.None? then "" else comma.value + ","
  }

  function EndText(end: ListEnd): string {
    match end
    case Closed(gap, last, body) => gap + (")" + (last + body))
    case Broken(gap, body) => gap + body
  }

  function ListText(ps: seq<Param>, end: ListEnd): string {
    if ps == [] then EndText(end)
    else ps[0].before + (ps[0].name + (CommaText(ps[0].comma) + ListText(ps[1..], end)))
  }

  function DefinitionText(def: Definition): string {
    match def
    case ObjectLike(name, gap, body) => name + (gap + body)
    case FunctionLike(name, params, end) => name + ("(" + ListText(params, end))
  }

  function NamesOf(ps: seq<Param>): seq<string> {
    if ps == [] then [] else [ps[0].name] + NamesOf(ps[1..])
  }

  /** The macro that a definition defines. */
  function MacroOf(def: Definition): Macro {
    match def
    case ObjectLike(_, _, body) => Macro(false, [], body)
    case FunctionLike(_, params, end) => Macro(true, NamesOf(params), end.body)
  }

  /** Characters of identifiers, no more than a buffer for names holds. */
  predicate FitName(w: string) {
    |w| <= 127 && forall k :: 0 <= k < |w| ==> IsIdCont(w[k])
  }

  predicate EndOk(end: ListEnd) {
    && Gap(end.gap)
    && match end
       case Closed(_, last, body) => Gap(last) && Starts(body)
       case Broken(_, body) => body == "" || (!IsBlank(body[0]) && !IsIdCont(body[0]) && body[0] != ')')
  }

  /** A parameter without a comma has a gap or the end after it, and no comma there. */
  predicate ListOk(ps: seq<Param>, end: ListEnd) {
    if ps == [] then EndOk(end)
    else
      var p := ps[0];
      && Gap(p.before) && FitName(p.name) && p.name != "" && ListOk(ps[1..], end)
      && (if p.comma.Some? then Gap(p.comma.value)
          else if |ps| > 1 then ps[1].before != ""
          else end.Broken? ==> end.body == "" || end.body[0] != ',')
  }

  predicate DefinitionOk(def: Definition) {
    && FitName(def.name)
    && match def
       case ObjectLike(_, gap, body) =>
         Gap(gap) && Starts(body) && Apart(gap + body) && (gap + body == "" || (gap + body)[0] != '(')
       case FunctionLike(_, params, end) => ListOk(params, end)
  }

  /** A list begins with blanks and then something else, that is no comma after a parameter. */
  lemma ListBegins(ps: seq<Param>, end: ListEnd) returns (gap: string, x: string)
    requires ListOk(ps, end)
    ensures ListText(ps, end) == gap + x && Gap(gap) && Starts(x)
    ensures ps != [] ==> gap == ps[0].before && x != "" && x[0] != ','
    ensures ps == [] ==>
      Apart(gap + x) && (end.Closed? || end.body == "" || end.body[0] != ',' ==> x == "" || x[0] != ',')
  {
    if ps == [] {
      gap := end.gap;
      x := if end.Closed? then ")" + (end.last + end.body) else end.body;
    } else {
      gap := ps[0].before;
      x := ps[0].name + (CommaText(ps[0].comma) + ListText(ps[1..], end));
      assert x[0] == ps[0].name[0];
    }
  }

  /** The first parameter, what stands after it, and what that must be. */
  lemma ListParts(ps: seq<Param>, end: ListEnd)
    requires ps != [] && ListOk(ps, end)
    ensures var p, after := ps[0], CommaText(ps[0].comma) + ListText(ps[1..], end);
      && ListText(ps, end) == p.before + (p.name + after)
      && Gap(p.before) && FitName(p.name) && p.name != "" && ListOk(ps[1..], end)
      && Apart(after) && Starts(p.name + after) && (p.comma.Some? ==> Gap(p.comma.value))
  {
    var after := CommaText(ps[0].comma) + ListText(ps[1..], end);
    NameStart(ps[0].name);
    assert (ps[0].name + after)[0] == ps[0].name[0];
    if ps[0].comma.None? {
      assert after == ListText(ps[1..], end);
      var gap, x := ListBegins(ps[1..], end);
    }
  }

  lemma {:induction false} ParamsRead(s: string, i: nat, ps: seq<Param>, end: ListEnd)
    requires i <= |s| && s[i..] == ListText(ps, end) && ListOk(ps, end)
    ensures ReadParams(s, i).0 == NamesOf(ps) && EndRead(s, ReadParams(s, i).1, end)
    decreases |ps|
  {
    hide SkipBlanks, WordEndWithin, ListText, ListOk, FitName, IsIdCont, Apart, Starts, ReadParams, Gap, EndRead,
         CommaText;
    if ps == [] {
      EndParts(ps, end);
      ListEnds(s, i, end);
    } else {
      var j, e := FirstParam(s, i, ps, end);
      var next := AfterComma(s, e, ps, end);
      ParamsRead(s, next, ps[1..], end);
      ParamStep(s, i, j, e, next);
    }
  }

  /** The first of the parameters is read. */
  lemma FirstParam(s: string, i: nat, ps: seq<Param>, end: ListEnd) returns (j: nat, e: nat)
    requires ps != [] && ListOk(ps, end) && i <= |s| && s[i..] == ListText(ps, end)
    ensures SkipBlanks(s, i) == j < e <= |s| && s[j] != ')' && WordEndWithin(s, j, NAME_MAX) == e
    ensures s[j..e] == ps[0].name && s[e..] == CommaText(ps[0].comma) + ListText(ps[1..], end)
    ensures ListOk(ps[1..], end)
  {
    hide SkipBlanks, WordEndWithin, ListText, ListOk, FitName, Apart, Starts, Gap, CommaText;
    ListParts(ps, end);
    var p, after := ps[0], CommaText(ps[0].comma) + ListText(ps[1..], end);
    NameFound(s, i, p.before, p.name, after);
    j := i + |p.before|;
    Dropped(s, j, p.name, after);
    e := j + |p.name|;
  }

  lemma NameFound(s: string, i: nat, gap: string, name: string, after: string)
    requires i <= |s| && s[i..] == gap + (name + after) && Gap(gap) && FitName(name) && name != ""
    requires Apart(after) && Starts(name + after)
    ensures SkipBlanks(s, i) == i + |gap| < |s| && s[i + |gap|..] == name + after
    ensures s[i + |gap|] != ')' && WordEndWithin(s, i + |gap|, NAME_MAX) == i + |gap| + |name|
  {
    hide SkipBlanks, WordEndWithin, FitName, Apart, Starts, Gap;
    GapSkipped(s, i, gap, name + after);
    Dropped(s, i, gap, name + after);
    ParamName(s, i + |gap|, name, after);
  }

  lemma EndParts(ps: seq<Param>, end: ListEnd)
    requires ps == [] && ListOk(ps, end)
    ensures ListText(ps, end) == EndText(end) && EndOk(end)
  {
  }

  /** Where the other parameters are, with or without a comma before them. */
  lemma AfterComma(s: string, e: nat, ps: seq<Param>, end: ListEnd) returns (next: nat)
    requires ps != [] && ListOk(ps, end) && e <= |s|
    requires s[e..] == CommaText(ps[0].comma) + ListText(ps[1..], end)
    ensures next <= |s| && s[next..] == ListText(ps[1..], end) && ReadParams(s, next) == ReadParams(s, Past(s, e))
  {
    hide SkipBlanks, WordEndWithin, ListText, FitName, IsIdCont, Apart, Starts, ReadParams, Gap, Past;
    ListParts(ps, end);
    var comma, rest := ps[0].comma, ListText(ps[1..], end);
    if comma.Some? {
      next := CommaPassed(s, e, comma.value, rest);
    } else {
      assert s[e..] == rest;
      next := e;
      var gap, x := ListBegins(ps[1..], end);
      NoCommaPassed(s, e, gap, x);
    }
  }

  lemma CommaPassed(s: string, e: nat, gap: string, rest: string) returns (next: nat)
    requires e <= |s| && s[e..] == (gap + ",") + rest && Gap(gap)
    ensures next == Past(s, e) && s[next..] == rest
  {
    hide SkipBlanks, Gap, Starts;
    assert s[e..] == gap + ("," + rest);
    CommaStarts(rest);
    GapSkipped(s, e, gap, "," + rest);
    Dropped(s, e, gap, "," + rest);
    Dropped(s, e + |gap|, ",", rest);
    next := e + |gap| + 1;
  }

  lemma NoCommaPassed(s: string, e: nat, gap: string, x: string)
    requires e <= |s| && s[e..] == gap + x && Gap(gap) && Starts(x) && (x == "" || x[0] != ',')
    ensures ReadParams(s, e) == ReadParams(s, Past(s, e))
  {
    hide SkipBlanks, Gap, Starts, ReadParams;
    GapSkipped(s, e, gap, x);
    Dropped(s, e, gap, x);
    if x != "" { Dropped(s, e + |gap|, x, ""); }
    ParamsAfterBlanks(s, e);
  }

  lemma CommaStarts(rest: string)
    ensures Starts("," + rest)
  {
  }

  /** Past the blanks, and past a comma after them. */
  function Past(s: string, e: nat): nat
    requires e <= |s|
    ensures Past(s, e) <= |s|
  {
    var k := SkipBlanks(s, e);
    if k < |s| && s[k] == ',' then k + 1 else k
  }

  /** One parameter, then the others. */
  lemma ParamStep(s: string, i: nat, j: nat, e: nat, next: nat)
    requires i <= |s| && SkipBlanks(s, i) == j < e <= |s| && s[j] != ')' && WordEndWithin(s, j, NAME_MAX) == e
    requires next <= |s| && ReadParams(s, next) == ReadParams(s, Past(s, e))
    ensures ReadParams(s, i) == ([s[j..e]] + ReadParams(s, next).0, ReadParams(s, next).1)
  {
    hide SkipBlanks, WordEndWithin, ReadParams;
    ParamsPast(s, i);
  }

  lemma ParamsPast(s: string, i: nat)
    requires i <= |s|
    ensures ReadParams(s, i) == ParamsFrom(s, SkipBlanks(s, i))
  {
    hide SkipBlanks, ParamsFrom;
  }

  /** The first position that is not blank is that of the same list. */
  lemma ParamsAfterBlanks(s: string, i: nat)
    requires i <= |s|
    ensures ReadParams(s, SkipBlanks(s, i)) == ReadParams(s, i)
  {
    hide SkipBlanks, ParamsFrom, ReadParams;
    var j := SkipBlanks(s, i);
    SkipEnds(s, j, j);
    ParamsPast(s, i);
    ParamsPast(s, j);
  }

  /** Where the list ends, only blanks and the body are left. */
  predicate EndRead(s: string, i: nat, end: ListEnd) {
    i <= |s| && s[SkipBlanks(s, i)..] == end.body
  }

  lemma ListEnds(s: string, i: nat, end: ListEnd)
    requires i <= |s| && s[i..] == EndText(end) && EndOk(end)
    ensures ReadParams(s, i).0 == [] && EndRead(s, ReadParams(s, i).1, end)
  {
    hide SkipBlanks, Gap, IsIdCont, IsBlank, Starts, ReadParams;
    match end
    case Closed(gap, last, body) => ClosedEnds(s, i, gap, last, body);
    case Broken(gap, body) => BrokenEnds(s, i, gap, body);
  }

  lemma ClosedEnds(s: string, i: nat, gap: string, last: string, body: string)
    requires i <= |s| && s[i..] == gap + (")" + (last + body)) && Gap(gap) && Gap(last) && Starts(body)
    ensures var j := i + |gap|; j < |s| && ReadParams(s, i) == ([], j + 1) && s[SkipBlanks(s, j + 1)..] == body
  {
    hide SkipBlanks, Gap, Starts, ReadParams;
    var j := i + |gap|;
    CloseStarts(last + body);
    GapSkipped(s, i, gap, ")" + (last + body));
    Dropped(s, i, gap, ")" + (last + body));
    Dropped(s, j, ")", last + body);
    BodyRead(s, j + 1, last, body);
    CloseStep(s, i, j);
  }

  lemma CloseStarts(rest: string)
    ensures Starts(")" + rest)
  {
  }

  lemma BrokenEnds(s: string, i: nat, gap: string, body: string)
    requires i <= |s| && s[i..] == gap + body && Gap(gap)
    requires body == "" || (!IsBlank(body[0]) && !IsIdCont(body[0]) && body[0] != ')')
    ensures var j := i + |gap|; j <= |s| && ReadParams(s, i) == ([], j) && s[SkipBlanks(s, j)..] == body
  {
    hide SkipBlanks, Gap, IsIdCont, IsBlank, ReadParams;
    var j := i + |gap|;
    GapSkipped(s, i, gap, body);
    Dropped(s, i, gap, body);
    if body != "" { Dropped(s, j, body, ""); }
    StopStep(s, i, j);
  }

  lemma CloseStep(s: string, i: nat, j: nat)
    requires i <= |s| && SkipBlanks(s, i) == j < |s| && s[j] == ')'
    ensures ReadParams(s, i) == ([], j + 1)
  {
    hide SkipBlanks, WordEndWithin, ReadParams;
    ParamsPast(s, i);
  }

  lemma StopStep(s: string, i: nat, j: nat)
    requires i <= |s| && SkipBlanks(s, i) == j <= |s|
    requires j < |s| ==> !IsIdCont(s[j]) && !IsBlank(s[j]) && s[j] != ')'
    ensures ReadParams(s, i) == ([], j) && SkipBlanks(s, j) == j
  {
    hide IsIdCont, IsBlank, ReadParams, SkipBlanks, WordEndWithin;
    NoName(s, j);
    ParamsPast(s, i);
  }

  lemma NoName(s: string, j: nat)
    requires j <= |s| && (j < |s| ==> !IsIdCont(s[j]) && !IsBlank(s[j]))
    ensures WordEndWithin(s, j, NAME_MAX) == j && SkipBlanks(s, j) == j
  {
    hide IsIdCont, IsBlank;
  }

  /** A parameter's name is read, up to what follows it. */
  lemma ParamName(s: string, i: nat, w: string, after: string)
    requires i <= |s| && s[i..] == w + after && FitName(w) && w != "" && Apart(after)
    ensures i < |s| && s[i] != ')' && WordEndWithin(s, i, NAME_MAX) == i + |w| <= |s|
    ensures s[i..i + |w|] == w && s[i + |w|..] == after
  {
    hide SkipBlanks, WordEndWithin, IsIdCont;
    Dropped(s, i, w, after);
    NameStart(w);
    WordRead(s, i, w, after, NAME_MAX);
  }

  lemma NameStart(w: string)
    requires FitName(w)
    ensures |w| <= NAME_MAX && forall k :: 0 <= k < |w| ==> IsIdCont(w[k])
    ensures w != "" ==> !IsBlank(w[0]) && w[0] != ')'
  {
  }

  lemma BodyRead(s: string, i: nat, gap: string, body: string)
    requires i <= |s| && s[i..] == gap + body && Gap(gap) && Starts(body)
    ensures s[SkipBlanks(s, i)..] == body
  {
    hide SkipBlanks;
    GapSkipped(s, i, gap, body);
    Dropped(s, i, gap, body);
  }

  lemma ParenApart(s: string)
    ensures Apart("(" + s)
  {
  }

  lemma ObjectRead(name: string, gap: string, body: string)
    requires FitName(name) && Gap(gap) && Starts(body)
    requires Apart(gap + body) && (gap + body == "" || (gap + body)[0] != '(')
    ensures ReadDefine(name + (gap + body)) == Define(name, Macro(false, [], body))
  {
    hide SkipBlanks, WordEndWithin, ReadDefine, IsIdCont, FitName, Gap, Starts, Apart;
    var s, after, e := name + (gap + body), gap + body, |name|;
    assert s[0..] == s;
    NameStart(name);
    WordRead(s, 0, name, after, NAME_MAX);
    Dropped(s, 0, name, after);
    BodyRead(s, e, gap, body);
    if after != "" {
      assert s[e..] == after + "";
      Dropped(s, e, after, "");
    }
    ObjectStep(s, e);
  }

  lemma ObjectStep(s: string, e: nat)
    requires WordEndWithin(s, 0, NAME_MAX) == e <= |s| && (e < |s| ==> s[e] != '(')
    ensures ReadDefine(s) == Define(s[0..e], Macro(false, [], s[SkipBlanks(s, e)..]))
  {
    hide SkipBlanks, WordEndWithin, ReadParams;
    assert s[..e] == s[0..e];
  }

  /** A name before `(` takes its parameters with it. */
  lemma FunctionStep(s: string, e: nat, r: (seq<string>, nat))
    requires WordEndWithin(s, 0, NAME_MAX) == e < |s| && s[e] == '(' && ReadParams(s, e + 1) == r
    ensures ReadDefine(s) == Define(s[0..e], Macro(true, r.0, s[SkipBlanks(s, r.1)..]))
  {
    hide SkipBlanks, WordEndWithin, ReadParams;
    assert s[..e] == s[0..e];
  }

  lemma FunctionRead(name: string, params: seq<Param>, end: ListEnd)
    requires FitName(name) && ListOk(params, end)
    ensures ReadDefine(name + ("(" + ListText(params, end))) == Define(name, Macro(true, NamesOf(params), end.body))
  {
    hide SkipBlanks, WordEndWithin, ReadParams, ReadDefine, ListText, ListOk, FitName;
    var list := ListText(params, end);
    var s, e := name + ("(" + list), |name|;
    assert s[0..] == s;
    FunctionName(s, name, list);
    ParamsRead(s, e + 1, params, end);
    FunctionStep(s, e, ReadParams(s, e + 1));
  }

  lemma FunctionName(s: string, name: string, list: string)
    requires s[0..] == name + ("(" + list) && FitName(name)
    ensures var e := |name|;
      WordEndWithin(s, 0, NAME_MAX) == e < |s| && s[e] == '(' && s[0..e] == name && s[e + 1..] == list
  {
    hide WordEndWithin, IsIdCont, Apart;
    ParenApart(list);
    NameStart(name);
    WordRead(s, 0, name, "(" + list, NAME_MAX);
    Dropped(s, 0, name, "(" + list);
    Dropped(s, |name|, "(", list);
  }

  lemma DefineRead(def: Definition)
    requires DefinitionOk(def)
    ensures ReadDefine(DefinitionText(def)) == Define(def.name, MacroOf(def))
  {
    hide ReadDefine, ListText, FitName, Gap, Starts, Apart, ListOk;
    match def
    case ObjectLike(name, gap, body) => ObjectRead(name, gap, body);
    case FunctionLike(name, params, end) => FunctionRead(name, params, end);
  }

  // ------------------------------------------------------- every kind of line

  /** A line as it is written, without its blanks before and after the keyword. */
  datatype Wording =
    | TextLine(text: string)
    | IncludeLine(arg: string)
    | DefineLine(def: Definition)
    | UndefLine(name: string, tail: string)
    | IfdefLine(name: string, tail: string)
    | IfndefLine(name: string, tail: string)
    | IfLine(expr: string)
    | ElifLine(expr: string)
    | ElseLine(tail: string)
    | EndifLine(tail: string)
    | ErrorText(tail: string)
    | PragmaLine(tail: string)
    | LineLine(tail: string)
    | OtherLine(keyword: string, tail: string)

  function Keyword(w: Wording): string {
    match w
    case TextLine(_) => ""
    case IncludeLine(_) => "include"
    case DefineLine(_) => "define"
    case UndefLine(_, _) => "undef"
    case IfdefLine(_, _) => "ifdef"
    case IfndefLine(_, _) => "ifndef"
    case IfLine(_) => "if"
    case ElifLine(_) => "elif"
    case ElseLine(_) => "else"
    case EndifLine(_) => "endif"
    case ErrorText(_) => "error"
    case PragmaLine(_) => "pragma"
    case LineLine(_) => "line"
    case OtherLine(keyword, _) => keyword
  }

  /** What stands after the keyword and the blanks. */
  function RestOf(w: Wording): string {
    match w
    case TextLine(_) => ""
    case IncludeLine(arg) => arg
    case DefineLine(def) => DefinitionText(def)
    case UndefLine(name, tail) => name + tail
    case IfdefLine(name, tail) => name + tail
    case IfndefLine(name, tail) => name + tail
    case IfLine(expr) => expr
    case ElifLine(expr) => expr
    case ElseLine(tail) => tail
    case EndifLine(tail) => tail
    case ErrorText(tail) => tail
    case PragmaLine(tail) => tail
    case LineLine(tail) => tail
    case OtherLine(_, tail) => tail
  }

  function Written(w: Wording, g: Gaps): string {
    if w.TextLine? then g.before + w.text else Hash(g, Keyword(w), RestOf(w))
  }

  /** A name of more than 127 characters is cut. */
  function Cut(name: string): string {
    if |name| <= 127 then name else name[..127]
  }

  predicate AllCont(w: string) {
    forall k :: 0 <= k < |w| ==> IsIdCont(w[k])
  }

  /** A word that is none of the keywords above.  It may be empty, or longer than any. */
  predicate NoKeyword(w: string) {
    && AllCont(w)
    && w !in ["include", "define", "undef", "ifdef", "ifndef", "if", "elif", "else", "endif", "error", "pragma", "line"]
  }

  /** The parts are parts, and what follows the keyword neither joins it nor begins with blanks. */
  predicate CanWrite(w: Wording, g: Gaps) {
    && GapsOk(g)
    && (if w.TextLine? then Starts(w.text) && (w.text == "" || w.text[0] != '#')
        else Apart(g.after + RestOf(w)) && Starts(RestOf(w)))
    && match w
       case DefineLine(def) => DefinitionOk(def)
       case UndefLine(name, tail) => AllCont(name) && Apart(tail)
       case IfdefLine(name, tail) => AllCont(name) && Apart(tail)
       case IfndefLine(name, tail) => AllCont(name) && Apart(tail)
       case OtherLine(keyword, _) =>
         NoKeyword(keyword) && (keyword == "" ==> g.after == "")
       case _ => true
  }

  /** What the line says. */
  function Says(w: Wording, g: Gaps): Directive {
    match w
    case TextLine(text) => Plain(g.before + text)
    case IncludeLine(arg) => Include(arg)
    case DefineLine(def) => Define(def.name, MacroOf(def))
    case UndefLine(name, _) => Undef(Cut(name))
    case IfdefLine(name, _) => Ifdef(Cut(name))
    case IfndefLine(name, _) => Ifndef(Cut(name))
    case IfLine(expr) => HashIf(expr)
    case ElifLine(expr) => HashElif(expr)
    case ElseLine(_) => HashElse
    case EndifLine(_) => HashEndif
    case ErrorText(_) => ErrorLine
    case PragmaLine(tail) => PassThrough("#" + (g.inside + ("pragma" + (g.after + tail))))
    case LineLine(tail) => PassThrough("#" + (g.inside + ("line" + (g.after + tail))))
    case OtherLine(_, _) => Ignored
  }

  // ------------------------------------------------------------------ the theorem

  /** A line is what its keyword, and what stands after that and the blanks, make it. */
  lemma HashClassified(g: Gaps, keyword: string, rest: string)
    requires GapsOk(g) && IsKeyword(keyword) && Apart(g.after + rest) && Starts(rest)
    ensures Classify(Hash(g, keyword, rest))
      == DirectiveOf(keyword, rest, "#" + (g.inside + (keyword + (g.after + rest))))
  {
    hide SkipBlanks, WordEndWithin, DirectiveOf, Hash, Gap, Starts, Apart, IsKeyword, Classify;
    NoBlankInside(keyword, g.after + rest);
    var line, p, q := HashFound(g, keyword, rest);
    var e := KeywordRead(line, q, keyword, g.after, rest);
    ClassifyStep(line, p, q, e);
  }

  /** So is a line with any other word, which is cut, or with none. */
  lemma OtherClassified(g: Gaps, keyword: string, rest: string)
    requires GapsOk(g) && NoKeyword(keyword) && Apart(g.after + rest) && Starts(rest)
    requires keyword == "" ==> g.after == ""
    ensures Classify(Hash(g, keyword, rest)).Ignored?
  {
    hide SkipBlanks, WordEndWithin, Hash, Gap, Starts, NoKeyword, Apart, DirectiveOf, Classify;
    OtherStarts(g.after, keyword, rest);
    var line, p, q := HashFound(g, keyword, rest);
    var e := OtherCut(line, q, keyword, g.after + rest);
    ClassifyStep(line, p, q, e);
    OtherIgnored(line[q..e], line[SkipBlanks(line, e)..], "#" + line[p + 1..]);
  }

  lemma ClassifyStep(line: string, p: nat, q: nat, e: nat)
    requires p == SkipBlanks(line, 0) < |line| && line[p] == '#'
    requires q == SkipBlanks(line, p + 1) && e == WordEndWithin(line, q, KEYWORD_MAX)
    ensures Classify(line) == DirectiveOf(line[q..e], line[SkipBlanks(line, e)..], "#" + line[p + 1..])
  {
    hide SkipBlanks, WordEndWithin, DirectiveOf;
  }

  lemma OtherIgnored(word: string, arg: string, whole: string)
    requires NoKeyword(word)
    ensures DirectiveOf(word, arg, whole).Ignored?
  {
  }

  /** Cut to 31 characters, the word is still no keyword. */
  lemma OtherCut(line: string, q: nat, keyword: string, after: string) returns (e: nat)
    requires NoKeyword(keyword) && Apart(after) && q <= |line| && line[q..] == keyword + after
    ensures e == WordEndWithin(line, q, KEYWORD_MAX) <= |line| && NoKeyword(line[q..e])
  {
    hide WordEndWithin, IsIdCont, Apart;
    e := WordEndWithin(line, q, KEYWORD_MAX);
    if |keyword| <= KEYWORD_MAX {
      WordRead(line, q, keyword, after, KEYWORD_MAX);
    } else {
      WordCut(line, q, keyword, after, KEYWORD_MAX);
      assert |line[q..e]| == 31;
    }
  }

  lemma OtherStarts(after: string, keyword: string, rest: string)
    requires NoKeyword(keyword) && Starts(rest) && (keyword == "" ==> after == "")
    ensures Starts(keyword + (after + rest))
  {
    if keyword == "" { assert keyword + (after + rest) == rest; }
  }

  lemma NameRead(name: string, tail: string)
    requires AllCont(name) && Apart(tail)
    ensures NameAt(name + tail, 0) == Cut(name)
  {
    hide WordEndWithin, IsIdCont, Apart;
    var s := name + tail;
    assert s[0..] == s;
    if |name| <= NAME_MAX { WordRead(s, 0, name, tail, NAME_MAX); } else { WordCut(s, 0, name, tail, NAME_MAX); }
  }

  /** The directive of each keyword. */
  lemma KeywordDecides(w: Wording, whole: string)
    requires !w.TextLine? && !w.OtherLine?
    ensures DirectiveOf(Keyword(w), RestOf(w), whole) ==
            match w
            case IncludeLine(arg) => Include(arg)
            case DefineLine(def) => ReadDefine(DefinitionText(def))
            case UndefLine(name, tail) => Undef(NameAt(name + tail, 0))
            case IfdefLine(name, tail) => Ifdef(NameAt(name + tail, 0))
            case IfndefLine(name, tail) => Ifndef(NameAt(name + tail, 0))
            case IfLine(expr) => HashIf(expr)
            case ElifLine(expr) => HashElif(expr)
            case ElseLine(_) => HashElse
            case EndifLine(_) => HashEndif
            case ErrorText(_) => ErrorLine
            case _ => PassThrough(whole)
  {
    hide ReadDefine, NameAt, DefinitionText;
  }

  /** Whatever may be written is read as what it says. */
  lemma ClassifyWritten(w: Wording, g: Gaps)
    requires CanWrite(w, g)
    ensures Classify(Written(w, g)) == Says(w, g)
  {
    hide Classify, Hash, DirectiveOf, DefinitionText, DefinitionOk, AllCont, Apart, Starts, Gap, NoKeyword, MacroOf;
    match w
    case TextLine(text) => TextClassified(g.before, text);
    case OtherLine(keyword, tail) => OtherClassified(g, keyword, tail);
    case _ =>
      hide ReadDefine, NameAt, RestOf, Keyword;
      KeywordsFit(w);
      HashClassified(g, Keyword(w), RestOf(w));
      KeywordDecides(w, "#" + (g.inside + (Keyword(w) + (g.after + RestOf(w)))));
      RestRead(w);
      if w.PragmaLine? || w.LineLine? { PassedThrough(w, g); }
  }

  lemma RestRead(w: Wording)
    requires match w
             case DefineLine(def) => DefinitionOk(def)
             case UndefLine(name, tail) => AllCont(name) && Apart(tail)
             case IfdefLine(name, tail) => AllCont(name) && Apart(tail)
             case IfndefLine(name, tail) => AllCont(name) && Apart(tail)
             case _ => true
    ensures match w
            case DefineLine(def) => ReadDefine(DefinitionText(def)) == Define(def.name, MacroOf(def))
            case UndefLine(name, tail) => NameAt(name + tail, 0) == Cut(name)
            case IfdefLine(name, tail) => NameAt(name + tail, 0) == Cut(name)
            case IfndefLine(name, tail) => NameAt(name + tail, 0) == Cut(name)
            case _ => true
  {
    hide ReadDefine, NameAt, DefinitionText, DefinitionOk, AllCont, Apart, MacroOf, Cut;
    match w
    case DefineLine(def) => DefineRead(def);
    case UndefLine(name, tail) => NameRead(name, tail);
    case IfdefLine(name, tail) => NameRead(name, tail);
    case IfndefLine(name, tail) => NameRead(name, tail);
    case _ =>
  }

  lemma PassedThrough(w: Wording, g: Gaps)
    requires w.PragmaLine? || w.LineLine?
    ensures Says(w, g) == PassThrough("#" + (g.inside + (Keyword(w) + (g.after + RestOf(w)))))
  {
  }

  lemma KeywordsFit(w: Wording)
    requires !w.TextLine? && !w.OtherLine?
    ensures IsKeyword(Keyword(w))
  {
  }

  lemma TextClassified(gap: string, text: string)
    requires Gap(gap) && Starts(text) && (text == "" || text[0] != '#')
    ensures Classify(gap + text) == Plain(gap + text)
  {
    hide WordEndWithin, SkipBlanks, DirectiveOf;
    var s := gap + text;
    assert s[0..] == s;
    GapSkipped(s, 0, gap, text);
  }
}
