/** Lines as they are written, and what macro expansion makes of them. */
module LineText {
  import opened Syntax
  import opened Seqs
  import opened Chars
  import opened Macros
  import opened ExpandSpec
  import opened Renaming

  /** A character by itself, a string literal, a word, or a call of a function-like macro. */
  datatype Chunk =
    | Plain(c: char)
    | Literal(inside: string)
    | Name(w: string)
    | Invoke(w: string, gap: string, args: seq<string>)

  /** How a line ends: just so, with a comment, or inside a string literal. */
  datatype Ending = Nothing | Remark(text: string) | OpenLiteral(inside: string)

  function Commas(args: seq<string>): string {
    if args == [] then "" else if |args| == 1 then args[0] else args[0] + ("," + Commas(args[1..]))
  }

  function ChunkText(c: Chunk): string {
    match c
    case Plain(ch) => [ch]
    case Literal(inside) => "\"" + (inside + "\"")
    case Name(w) => w
    case Invoke(w, gap, args) => w + (gap + ("(" + (Commas(args) + ")")))
  }

  function LineOf(cs: seq<Chunk>): string {
    if cs == [] then "" else ChunkText(cs[0]) + LineOf(cs[1..])
  }

  function EndText(e: Ending): string {
    match e
    case Nothing => ""
    case Remark(text) => "//" + text
    case OpenLiteral(inside) => "\"" + inside
  }

  // ---------------------------------------------------------------- what may be written

  /** No quote but after a backslash, which takes the next character with it. */
  predicate Quotable(inside: string) {
    inside == ""
    || (inside[0] == '\\' && |inside| >= 2 && Quotable(inside[2..]))
    || (inside[0] != '\\' && inside[0] != '"' && Quotable(inside[1..]))
  }

  /** The same, but the last backslash may have nothing to take. */
  predicate Open(inside: string) {
    inside == "" || inside == "\\"
    || (inside[0] == '\\' && |inside| >= 2 && Open(inside[2..]))
    || (inside[0] != '\\' && inside[0] != '"' && Open(inside[1..]))
  }

  /** Parentheses in pairs, and commas only inside of them. */
  predicate ArgText(s: string, depth: nat) {
    if s == "" then depth == 0
    else if s[0] == '(' then ArgText(s[1..], depth + 1)
    else if s[0] == ')' then depth > 0 && ArgText(s[1..], depth - 1)
    else (s[0] == ',' ==> depth > 0) && ArgText(s[1..], depth)
  }

  predicate NamesFunction(t: Table, w: string) {
    |w| < 256 && Find(t, w).Some? && Find(t, w).value.isFunc
  }

  predicate NamesObject(t: Table, w: string) {
    |w| < 256 && Find(t, w).Some? && !Find(t, w).value.isFunc
  }

  /** The chunk can stand before this text and still be what it is. */
  predicate Stands(t: Table, c: Chunk, next: string) {
    match c
    case Plain(ch) => ch != '"' && !IsIdStart(ch) && (ch == '/' ==> next == "" || next[0] != '/')
    case Literal(inside) => Quotable(inside)
    case Name(w) =>
      && IsWord(w) && (next == "" || !IsIdCont(next[0]))
      && (NamesFunction(t, w) ==> !Have(next, SkipBlanks(next, 0), '('))
    case Invoke(w, gap, args) =>
      && IsWord(w) && NamesFunction(t, w) && (forall k :: 0 <= k < |gap| ==> IsBlank(gap[k]))
      && args != [] && forall k :: 0 <= k < |args| ==> ArgText(args[k], 0)
  }

  predicate AllStand(t: Table, cs: seq<Chunk>, end: string) {
    cs == [] || (Stands(t, cs[0], LineOf(cs[1..]) + end) && AllStand(t, cs[1..], end))
  }

  predicate Ends(e: Ending) {
    e.OpenLiteral? ==> Open(e.inside)
  }

  // ------------------------------------------------------------------ what it becomes

  /** A parameter is its argument; any other piece of a body is itself. */
  function Picked(params: seq<string>, args: seq<string>, piece: string): string
    requires |params| == |args|
  {
    if params == [] then piece else if params[0] == piece then args[0] else Picked(params[1..], args[1..], piece)
  }

  /** A body cut into words and single characters, with the arguments in the places of the
      parameters.  A word of more than 127 characters is no parameter. */
  function Filled(pieces: seq<string>, params: seq<string>, args: seq<string>): string
    requires |params| == |args|
  {
    if pieces == [] then ""
    else (if IsWord(pieces[0]) && |pieces[0]| <= 127 then Picked(params, args, pieces[0]) else pieces[0]) +
         Filled(pieces[1..], params, args)
  }

  function Becomes(t: Table, c: Chunk): string {
    match c
    case Plain(ch) => [ch]
    case Literal(inside) => "\"" + (inside + "\"")
    case Name(w) => if NamesObject(t, w) then Find(t, w).value.body else w
    case Invoke(w, _, args) =>
      var m := Find(t, w);
      if m.Some? && |m.value.params| == |args| then Filled(Pieces(m.value.body, 0), m.value.params, args) else ""
  }

  /** One error for each call with the wrong number of arguments. */
  function Faults(t: Table, c: Chunk): nat {
    match c
    case Invoke(w, _, args) =>
      var m := Find(t, w);
      if m.Some? && |m.value.params| == |args| then 0 else 1
    case _ => 0
  }

  function LineBecomes(t: Table, cs: seq<Chunk>): string {
    if cs == [] then "" else Becomes(t, cs[0]) + LineBecomes(t, cs[1..])
  }

  function LineFaults(t: Table, cs: seq<Chunk>): nat {
    if cs == [] then 0 else Faults(t, cs[0]) + LineFaults(t, cs[1..])
  }

  // ------------------------------------------------------------------ bodies

  lemma {:induction false} PickedIs(params: seq<string>, args: seq<string>, piece: string)
    requires |params| == |args|
    ensures Picked(params, args, piece) ==
            if IndexOf(params, piece).Some? then args[IndexOf(params, piece).value] else piece
    decreases |params|
  {
    if params != [] && params[0] != piece { PickedIs(params[1..], args[1..], piece); }
  }

  lemma {:induction false} FilledIs(pieces: seq<string>, params: seq<string>, args: seq<string>)
    requires |params| == |args| && forall i :: 0 <= i < |pieces| ==> IsPiece(pieces[i])
    ensures PieceImages(pieces, params, args) == Filled(pieces, params, args)
    decreases |pieces|
  {
    hide IsWord, IsIdStart;
    if pieces != [] {
      assert IsPiece(pieces[0]);
      PickedIs(params, args, pieces[0]);
      WordStarts(pieces[0]);
      FilledIs(pieces[1..], params, args);
    }
  }

  lemma WordStarts(p: string)
    requires IsPiece(p)
    ensures p != "" && (IsWord(p) <==> IsIdStart(p[0]))
  {
  }

  /** Substitution in a body cut into words and characters: each parameter is replaced by its
      argument, all at once, and nothing else is. */
  lemma SubstituteFills(pieces: seq<string>, params: seq<string>, args: seq<string>)
    requires |params| == |args| && IsCut(pieces)
    ensures Substitute(Concat(pieces), params, args) == Filled(pieces, params, args)
  {
    var body := Concat(pieces);
    assert body[0..] == body;
    CutAgain(body, 0, pieces);
    FilledIs(pieces, params, args);
  }

  // ------------------------------------------------------------------ one chunk

  lemma {:induction false} LiteralEnd(s: string, i: nat, inside: string, next: string)
    requires i <= |s| && s[i..] == inside + ("\"" + next) && Quotable(inside)
    ensures StringEnd(s, i) == i + |inside| + 1 <= |s|
    decreases |inside|
  {
    if inside == "" {
      assert s[i] == s[i..][0] == '"';
    } else if inside[0] == '\\' {
      assert s[i] == s[i..][0] == '\\';
      assert s[i + 2..] == s[i..][2..] == inside[2..] + ("\"" + next);
      LiteralEnd(s, i + 2, inside[2..], next);
    } else {
      assert s[i] == s[i..][0] == inside[0];
      assert s[i + 1..] == s[i..][1..] == inside[1..] + ("\"" + next);
      LiteralEnd(s, i + 1, inside[1..], next);
    }
  }

  lemma {:induction false} OpenEnd(s: string, i: nat, inside: string)
    requires i <= |s| && s[i..] == inside && Open(inside)
    ensures StringEnd(s, i) == |s|
    decreases |inside|
  {
    if inside == "" {
    } else if inside == "\\" {
      assert s[i] == s[i..][0] && |s| == i + 1;
    } else if inside[0] == '\\' {
      assert s[i] == s[i..][0] == '\\';
      assert s[i + 2..] == s[i..][2..] == inside[2..];
      OpenEnd(s, i + 2, inside[2..]);
    } else {
      assert s[i] == s[i..][0] == inside[0];
      assert s[i + 1..] == s[i..][1..] == inside[1..];
      OpenEnd(s, i + 1, inside[1..]);
    }
  }

  lemma WordFound(s: string, i: nat, w: string, next: string)
    requires i <= |s| && s[i..] == w + next && IsWord(w) && (next == "" || !IsIdCont(next[0]))
    ensures i + |w| <= |s| && IsIdStart(s[i]) && WordEnd(s, i + 1) == i + |w| && s[i..i + |w|] == w
    ensures s[i + |w|..] == next
  {
    var e := i + |w|;
    assert s[i..][..|w|] == w && s[i..][|w|..] == next;
    assert forall j :: i <= j < e ==> s[j] == s[i..][j - i] == w[j - i];
    if next != "" { assert s[e] == s[e..][0]; }
    WordEndAt(s, i + 1, e);
  }

  /** Blanks are skipped alike wherever the text stands. */
  lemma {:induction false} SkipMoved(s: string, i: nat, next: string)
    requires i <= |s| && s[i..] == next
    ensures SkipBlanks(s, i) == i + SkipBlanks(next, 0)
    decreases |next|
  {
    SkipFrom(s, i, next, 0);
  }

  lemma {:induction false} SkipFrom(s: string, i: nat, next: string, k: nat)
    requires i <= |s| && s[i..] == next && k <= |next|
    ensures SkipBlanks(s, i + k) == i + SkipBlanks(next, k)
    decreases |next| - k
  {
    if k < |next| {
      assert s[i + k] == s[i..][k];
      SkipFrom(s, i, next, k + 1);
    }
  }

  lemma NameSeg(t: Table, s: string, i: nat, w: string, next: string)
    requires i < |s| && s[i..] == w + next && Stands(t, Name(w), next)
    ensures SegAt(t, s, i) == Word(w) && Image(t, Word(w)) == Becomes(t, Name(w))
  {
    hide WordEnd, SkipBlanks, ReadArgs, StringEnd, Find, IsWord, IsIdCont, IsIdStart;
    WordFound(s, i, w, next);
    SkipMoved(s, i + |w|, next);
    var k := SkipBlanks(next, 0);
    if k < |next| { assert s[i + |w| + k] == s[i + |w|..][k]; }
    FirstOfWord(w);
  }

  lemma FirstOfWord(w: string)
    requires IsWord(w)
    ensures w != "" && IsIdStart(w[0]) && w[0] != '"' && w[0] != '/'
  {
  }

  // ------------------------------------------------------------------ calls

  lemma {:induction false} OneArgRead(s: string, j: nat, depth: nat, cur: string, arg: string, next: string)
    requires j <= |s| && s[j..] == arg + next && ArgText(arg, depth)
    requires next != "" && (next[0] == ',' || next[0] == ')')
    ensures j + |arg| < |s| && s[j + |arg|..] == next && s[j + |arg|] == next[0]
    ensures ReadArgs(s, j, depth + 1, cur) == ReadArgs(s, j + |arg|, 1, cur + arg)
    decreases |arg|
  {
    if arg == "" {
      assert s[j..][0] == next[0] && cur + arg == cur;
    } else {
      hide ReadArgs;
      assert s[j] == s[j..][0] == arg[0];
      assert s[j + 1..] == s[j..][1..] == arg[1..] + next;
      assert (cur + [s[j]]) + arg[1..] == cur + arg;
      ArgGoesOn(s, j, depth + 1, cur);
      var depth' := if arg[0] == '(' then depth + 1 else if arg[0] == ')' then depth - 1 else depth;
      OneArgRead(s, j + 1, depth', cur + [s[j]], arg[1..], next);
    }
  }

  /** What follows the first of the arguments. */
  function AfterFirst(args: seq<string>, next: string): string
    requires args != []
  {
    if |args| == 1 then ")" + next else "," + (Commas(args[1..]) + (")" + next))
  }

  lemma FirstArg(args: seq<string>, next: string)
    requires args != []
    ensures Commas(args) + (")" + next) == args[0] + AfterFirst(args, next)
    ensures |Commas(args)| == |args[0]| + if |args| == 1 then 0 else 1 + |Commas(args[1..])|
    ensures |args| > 1 ==> AfterFirst(args, next)[1..] == Commas(args[1..]) + (")" + next)
  {
  }

  lemma {:induction false} ArgsRead(s: string, j: nat, args: seq<string>, next: string)
    requires j <= |s| && s[j..] == Commas(args) + (")" + next) && args != []
    requires forall k :: 0 <= k < |args| ==> ArgText(args[k], 0)
    ensures ReadArgs(s, j, 1, "") == Args(args, j + |Commas(args)| + 1)
    decreases |args|
  {
    hide ReadArgs, ArgText, Commas, AfterFirst;
    FirstArg(args, next);
    AfterStarts(args, next);
    OneArgRead(s, j, 0, "", args[0], AfterFirst(args, next));
    ArgEnds(s, j + |args[0]|, args[0]);
    assert "" + args[0] == args[0];
    if |args| > 1 {
      RestAfter(s, j, args, next);
      ArgsRead(s, j + |args[0]| + 1, args[1..], next);
    }
    assert args == [args[0]] + args[1..];
  }

  lemma AfterStarts(args: seq<string>, next: string)
    requires args != []
    ensures AfterFirst(args, next) != "" && AfterFirst(args, next)[0] == if |args| == 1 then ')' else ','
  {
  }

  lemma RestAfter(s: string, j: nat, args: seq<string>, next: string)
    requires |args| > 1 && j + |args[0]| < |s| && s[j + |args[0]|..] == AfterFirst(args, next)
    ensures s[j + |args[0]| + 1..] == Commas(args[1..]) + (")" + next)
  {
    hide Commas;
    var k := j + |args[0]|;
    assert s[k + 1..] == s[k..][1..];
  }

  lemma CallText(w: string, gap: string, args: seq<string>, next: string)
    ensures ChunkText(Invoke(w, gap, args)) + next == w + (gap + ("(" + (Commas(args) + (")" + next))))
    ensures |ChunkText(Invoke(w, gap, args))| == |w| + |gap| + |Commas(args)| + 2
    ensures var after := gap + ("(" + (Commas(args) + (")" + next)));
      after[0] == if gap == "" then '(' else gap[0]
  {
    hide Commas;
  }

  /** Where the word, the gap and the arguments of a call end. */
  lemma CallParts(s: string, i: nat, w: string, gap: string, args: seq<string>, next: string)
    requires i < |s| && s[i..] == ChunkText(Invoke(w, gap, args)) + next && IsWord(w) && args != []
    requires forall k :: 0 <= k < |gap| ==> IsBlank(gap[k])
    requires forall k :: 0 <= k < |args| ==> ArgText(args[k], 0)
    ensures var e := i + |w|;
      var p := e + |gap|;
      && p < |s| && WordEnd(s, i + 1) == e && s[i..e] == w
      && SkipBlanks(s, e) == p && s[p] == '('
      && ReadArgs(s, p + 1, 1, "") == Args(args, i + |ChunkText(Invoke(w, gap, args))|)
  {
    hide WordEnd, SkipBlanks, ReadArgs, IsWord, IsIdCont, IsIdStart, ArgText, Commas, ChunkText;
    var inner := Commas(args) + (")" + next);
    var after := gap + ("(" + inner);
    CallText(w, gap, args, next);
    GapEnds(gap);
    WordFound(s, i, w, after);
    var e := i + |w|;
    SkipMoved(s, e, after);
    GapSkipped(gap, "(" + inner);
    Dropped(s, e, gap, "(" + inner);
    Dropped(s, e + |gap|, "(", inner);
    ArgsRead(s, e + |gap| + 1, args, next);
  }

  lemma CallSeg(t: Table, s: string, i: nat, w: string, gap: string, args: seq<string>, next: string)
    requires i < |s| && Stands(t, Invoke(w, gap, args), next) && s[i..] == ChunkText(Invoke(w, gap, args)) + next
    ensures SegAt(t, s, i) == Invocation(w, args, ChunkText(Invoke(w, gap, args)))
  {
    hide WordEnd, SkipBlanks, ReadArgs, StringEnd, Find, IsWord, IsIdCont, IsIdStart, ArgText, ChunkText;
    var text := ChunkText(Invoke(w, gap, args));
    CallParts(s, i, w, gap, args, next);
    FirstOfWord(w);
    assert s[i] == s[i..i + |w|][0];
    assert s[i..i + |text|] == s[i..][..|text|] == text;
  }

  lemma GapEnds(gap: string)
    requires forall k :: 0 <= k < |gap| ==> IsBlank(gap[k])
    ensures gap == "" || !IsIdCont(gap[0])
    ensures !IsIdCont('(')
  {
  }

  lemma {:induction false} GapSkipped(gap: string, next: string)
    requires (forall k :: 0 <= k < |gap| ==> IsBlank(gap[k])) && next != "" && !IsBlank(next[0])
    ensures SkipBlanks(gap + next, 0) == |gap|
  {
    var s := gap + next;
    assert s[|gap|] == next[0];
    assert forall k :: 0 <= k < |gap| ==> s[k] == gap[k];
  }

  lemma CallBecomes(t: Table, w: string, gap: string, args: seq<string>, text: string)
    requires NamesFunction(t, w)
    ensures Image(t, Invocation(w, args, text)) == Becomes(t, Invoke(w, gap, args))
    ensures Errors(t, Invocation(w, args, text)) == Faults(t, Invoke(w, gap, args))
  {
    hide Find, Pieces;
    var m := Find(t, w).value;
    if |m.params| == |args| {
      PiecesAreCut(m.body, 0);
      FilledIs(Pieces(m.body, 0), m.params, args);
    }
  }

  // ------------------------------------------------------------------ the line

  lemma PlainSeg(t: Table, s: string, i: nat, ch: char, next: string)
    requires i < |s| && s[i..] == [ch] + next && Stands(t, Plain(ch), next)
    ensures SegAt(t, s, i) == Other([ch])
  {
    hide WordEnd, SkipBlanks, ReadArgs, StringEnd, Find;
    assert s[i] == s[i..][0] && s[i..i + 1] == [ch];
    if next != "" { assert s[i + 1] == s[i..][1] == next[0]; }
  }

  lemma LiteralSeg(t: Table, s: string, i: nat, inside: string, next: string)
    requires i < |s| && s[i..] == ("\"" + (inside + "\"")) + next && Quotable(inside)
    ensures SegAt(t, s, i) == Quoted("\"" + (inside + "\""))
  {
    hide WordEnd, SkipBlanks, ReadArgs, StringEnd, Find;
    var text := "\"" + (inside + "\"");
    assert s[i] == s[i..][0];
    assert s[i..i + |text|] == s[i..][..|text|] == text;
    assert s[i + 1..] == s[i..][1..] == inside + ("\"" + next);
    LiteralEnd(s, i + 1, inside, next);
  }

  lemma ChunkSeg(t: Table, s: string, i: nat, c: Chunk, next: string)
    requires i < |s| && s[i..] == ChunkText(c) + next && Stands(t, c, next)
    ensures var g := SegAt(t, s, i);
      g.text == ChunkText(c) && Image(t, g) == Becomes(t, c) && Errors(t, g) == Faults(t, c)
  {
    hide SegAt, Find, IsWord, IsIdCont, ArgText, Commas, Filled, Pieces;
    match c
    case Plain(ch) => PlainSeg(t, s, i, ch, next);
    case Literal(inside) => LiteralSeg(t, s, i, inside, next);
    case Name(w) => NameSeg(t, s, i, w, next);
    case Invoke(w, gap, args) =>
      CallSeg(t, s, i, w, gap, args, next);
      CallBecomes(t, w, gap, args, ChunkText(c));
  }

  lemma EndSeg(t: Table, s: string, i: nat, e: Ending)
    requires i <= |s| && s[i..] == EndText(e) && Ends(e)
    ensures Images(t, Split(t, s, i)) == EndText(e) && ErrorCount(t, Split(t, s, i)) == 0
  {
    hide WordEnd, SkipBlanks, ReadArgs, StringEnd, Find;
    if !e.Nothing? {
      assert s[i] == s[i..][0] && |s| == i + |EndText(e)|;
      if e.Remark? {
        assert s[i + 1] == s[i..][1];
      } else {
        assert s[i + 1..] == s[i..][1..] == e.inside;
        OpenEnd(s, i + 1, e.inside);
      }
      assert SegAt(t, s, i).text == s[i..];
      SplitStep(t, s, i);
      ImagesStep(t, SegAt(t, s, i), []);
      assert Split(t, s, |s|) == [];
    }
  }

  lemma {:induction false} ChunksExpand(t: Table, s: string, i: nat, cs: seq<Chunk>, e: Ending)
    requires i <= |s| && s[i..] == LineOf(cs) + EndText(e) && AllStand(t, cs, EndText(e)) && Ends(e)
    ensures Images(t, Split(t, s, i)) == LineBecomes(t, cs) + EndText(e)
    ensures ErrorCount(t, Split(t, s, i)) == LineFaults(t, cs)
    decreases |cs|
  {
    hide SegAt, Image, Errors, Becomes, Faults, Stands, Ends, EndText, ChunkText, Split, Images, ErrorCount;
    if cs == [] {
      EndSeg(t, s, i, e);
    } else {
      var c := cs[0];
      var next := LineOf(cs[1..]) + EndText(e);
      assert s[i..] == ChunkText(c) + next;
      ChunkNonempty(t, c, next);
      ChunkSeg(t, s, i, c, next);
      var j := i + |ChunkText(c)|;
      assert s[j..] == s[i..][|ChunkText(c)|..] == next;
      ChunksExpand(t, s, j, cs[1..], e);
      SplitStep(t, s, i);
      ImagesStep(t, SegAt(t, s, i), Split(t, s, j));
    }
  }

  lemma ChunkNonempty(t: Table, c: Chunk, next: string)
    requires Stands(t, c, next)
    ensures ChunkText(c) != ""
  {
  }

  /** What expansion makes of any line: literals and comments stay, words that name object-like
      macros become their bodies, calls become filled bodies, and all else stays. */
  lemma LineExpands(t: Table, cs: seq<Chunk>, e: Ending)
    requires AllStand(t, cs, EndText(e)) && Ends(e)
    ensures Expand(t, LineOf(cs) + EndText(e)) == Expanded(LineBecomes(t, cs) + EndText(e), LineFaults(t, cs))
  {
    var line := LineOf(cs) + EndText(e);
    assert line[0..] == line;
    ChunksExpand(t, line, 0, cs, e);
  }

  // ------------------------------------------------------------------ one macro

  /** No call, and no word that names an object-like macro. */
  predicate Quiet(t: Table, cs: seq<Chunk>) {
    forall k :: 0 <= k < |cs| ==> !cs[k].Invoke? && (cs[k].Name? ==> !NamesObject(t, cs[k].w))
  }

  lemma {:induction false} QuietStays(t: Table, cs: seq<Chunk>)
    requires Quiet(t, cs)
    ensures LineBecomes(t, cs) == LineOf(cs) && LineFaults(t, cs) == 0
    decreases |cs|
  {
    hide NamesObject;
    if cs != [] { QuietStays(t, cs[1..]); }
  }

  lemma {:induction false} LineJoin(t: Table, a: seq<Chunk>, b: seq<Chunk>)
    ensures LineOf(a + b) == LineOf(a) + LineOf(b)
    ensures LineBecomes(t, a + b) == LineBecomes(t, a) + LineBecomes(t, b)
    ensures LineFaults(t, a + b) == LineFaults(t, a) + LineFaults(t, b)
    decreases |a|
  {
    hide ChunkText, Becomes, Faults;
    if a == [] {
      assert a + b == b;
    } else {
      assert (a + b)[0] == a[0] && (a + b)[1..] == a[1..] + b;
      LineJoin(t, a[1..], b);
    }
  }

  lemma OneChunk(t: Table, c: Chunk)
    ensures LineOf([c]) == ChunkText(c) && LineBecomes(t, [c]) == Becomes(t, c) && LineFaults(t, [c]) == Faults(t, c)
  {
    hide ChunkText, Becomes, Faults;
    assert [c][1..] == [];
    assert ChunkText(c) + LineOf([]) == ChunkText(c) && Becomes(t, c) + LineBecomes(t, []) == Becomes(t, c);
  }

  /** An object-like macro in a line becomes its body, whatever stands around it: the body as
      it is, and nothing else changes. */
  lemma MacroBecomesBody(t: Table, pre: seq<Chunk>, w: string, post: seq<Chunk>, e: Ending)
    requires NamesObject(t, w) && Quiet(t, pre) && Quiet(t, post) && Ends(e)
    requires AllStand(t, (pre + [Name(w)]) + post, EndText(e))
    ensures Expand(t, (LineOf(pre) + w) + (LineOf(post) + EndText(e))) ==
            Expanded((LineOf(pre) + Find(t, w).value.body) + (LineOf(post) + EndText(e)), 0)
  {
    hide AllStand, Ends, Quiet, Expand, LineOf, LineBecomes, LineFaults;
    QuietStays(t, pre);
    QuietStays(t, post);
    LineJoin(t, pre + [Name(w)], post);
    LineJoin(t, pre, [Name(w)]);
    OneChunk(t, Name(w));
    LineExpands(t, (pre + [Name(w)]) + post, e);
    assert (LineOf(pre) + w) + (LineOf(post) + EndText(e)) == LineOf((pre + [Name(w)]) + post) + EndText(e);
  }
}
