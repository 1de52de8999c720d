/** Macro expansion of one line, as a map over the segments of the line. */
module ExpandSpec {
  import opened Syntax
  import opened Seqs
  import opened Chars
  import opened Macros

  /** Longer words are never looked up: they do not fit the buffers. */
  const WORD_LIMIT: nat := 256
  const PARAM_LIMIT: nat := 128

  /** A line is a sequence of string literals, words, invocations of function-like macros,
      single characters, and at most one comment at the end. */
  datatype Seg =
    | Quoted(text: string)
    | Comment(text: string)
    | Word(text: string)
    | Invocation(name: string, args: seq<string>, text: string)
    | Other(text: string)

  /** The end of the string literal that has started before `i`: after its closing quote, or
      the end of the line.  A backslash takes the next character with it. */
  function StringEnd(s: string, i: nat): (j: nat)
    requires i <= |s|
    ensures i <= j <= |s|
    decreases |s| - i
  {
    if i == |s| then i
    else if s[i] == '\\' && i + 1 < |s| then StringEnd(s, i + 2)
    else if s[i] == '"' then i + 1
    else StringEnd(s, i + 1)
  }

  datatype Args = Args(args: seq<string>, next: nat)

  /** The arguments from `j` on, `depth` parentheses deep, with `cur` read of the current
      one.  An argument that the line does not finish is dropped. */
  function ReadArgs(s: string, j: nat, depth: nat, cur: string): (r: Args)
    requires j <= |s| && depth >= 1
    ensures j <= r.next <= |s|
    decreases |s| - j
  {
    if j == |s| then Args([], j)
    else if s[j] == '(' then ReadArgs(s, j + 1, depth + 1, cur + [s[j]])
    else if s[j] == ')' then
      if depth == 1 then Args([cur], j + 1) else ReadArgs(s, j + 1, depth - 1, cur + [s[j]])
    else if s[j] == ',' && depth == 1 then
      var r := ReadArgs(s, j + 1, 1, "");
      Args([cur] + r.args, r.next)
    else ReadArgs(s, j + 1, depth, cur + [s[j]])
  }

  /** The macro a word names, if it is looked up at all. */
  function Lookup(t: Table, word: string): Option<Macro> {
    if |word| < WORD_LIMIT then Find(t, word) else None
  }

  predicate StartsCall(t: Table, s: string, word: string, e: nat)
    requires e <= |s|
  {
    var m := Lookup(t, word);
    m.Some? && m.value.isFunc && Have(s, SkipBlanks(s, e), '(')
  }

  /** The segment that starts at `i`. */
  function SegAt(t: Table, s: string, i: nat): (r: Seg)
    requires i < |s|
    ensures 0 < |r.text| <= |s| - i
    ensures r.text == s[i..i + |r.text|]
  {
    if s[i] == '"' then Quoted(s[i..StringEnd(s, i + 1)])
    else if s[i] == '/' && Have(s, i + 1, '/') then Comment(s[i..])
    else if IsIdStart(s[i]) then
      var e := WordEnd(s, i + 1);
      var word := s[i..e];
      if StartsCall(t, s, word, e) then
        var a := ReadArgs(s, SkipBlanks(s, e) + 1, 1, "");
        Invocation(word, a.args, s[i..a.next])
      else Word(word)
    else Other(s[i..i + 1])
  }

  function Split(t: Table, s: string, i: nat): seq<Seg>
    requires i <= |s|
    decreases |s| - i
  {
    if i == |s| then []
    else
      var g := SegAt(t, s, i);
      [g] + Split(t, s, i + |g.text|)
  }

  // --------------------------------------------------------------- substitution

  /** A macro body in words and single characters. */
  function PieceEnd(b: string, k: nat): (e: nat)
    requires k < |b|
    ensures k < e <= |b|
  {
    if IsIdStart(b[k]) then WordEnd(b, k + 1) else k + 1
  }

  function Pieces(b: string, k: nat): seq<string>
    requires k <= |b|
    decreases |b| - k
  {
    if k == |b| then [] else [b[k..PieceEnd(b, k)]] + Pieces(b, PieceEnd(b, k))
  }

  function IndexOf(params: seq<string>, name: string): (r: Option<nat>)
    ensures r.Some? ==> r.value < |params| && params[r.value] == name
    ensures r.None? <==> name !in params
  {
    if params == [] then None
    else if params[0] == name then Some(0)
    else
      var r := IndexOf(params[1..], name);
      assert name in params <==> name == params[0] || name in params[1..];
      if r.Some? then Some(r.value + 1) else None
  }

  /** A parameter becomes its argument; anything else stays.  What is put in is not looked at
      again. */
  function PieceImage(piece: string, params: seq<string>, args: seq<string>): string
    requires |params| == |args|
  {
    var q := IndexOf(params, piece);
    if piece != "" && IsIdStart(piece[0]) && |piece| < PARAM_LIMIT && q.Some? then args[q.value] else piece
  }

  function PieceImages(pieces: seq<string>, params: seq<string>, args: seq<string>): string
    requires |params| == |args|
  {
    if pieces == [] then ""
    else PieceImage(pieces[0], params, args) + PieceImages(pieces[1..], params, args)
  }

  function Substitute(body: string, params: seq<string>, args: seq<string>): string
    requires |params| == |args|
  {
    PieceImages(Pieces(body, 0), params, args)
  }

  // ------------------------------------------------------------------ expansion

  function Image(t: Table, g: Seg): string {
    match g
    case Word(w) =>
      var m := Lookup(t, w);
      if m.Some? && !m.value.isFunc then m.value.body else w
    case Invocation(name, args, _) =>
      var m := Lookup(t, name);
      if m.Some? && |m.value.params| == |args| then Substitute(m.value.body, m.value.params, args) else ""
    case _ => g.text
  }

  /** An invocation with the wrong number of arguments is an error. */
  function Errors(t: Table, g: Seg): nat {
    match g
    case Invocation(name, args, _) =>
      var m := Lookup(t, name);
      if m.Some? && |m.value.params| == |args| then 0 else 1
    case _ => 0
  }

  function Images(t: Table, gs: seq<Seg>): string {
    if gs == [] then "" else Image(t, gs[0]) + Images(t, gs[1..])
  }

  function ErrorCount(t: Table, gs: seq<Seg>): nat {
    if gs == [] then 0 else Errors(t, gs[0]) + ErrorCount(t, gs[1..])
  }

  datatype Expanded = Expanded(out: string, errs: nat)

  function Expand(t: Table, line: string): Expanded {
    var gs := Split(t, line, 0);
    Expanded(Images(t, gs), ErrorCount(t, gs))
  }

  // ------------------------------------------------------------------- theorems

  function Texts(gs: seq<Seg>): string {
    if gs == [] then "" else gs[0].text + Texts(gs[1..])
  }

  /** The segments are the line, cut up. */
  lemma {:induction false} SegmentsPartition(t: Table, s: string, i: nat)
    requires i <= |s|
    ensures Texts(Split(t, s, i)) == s[i..]
    decreases |s| - i
  {
    hide SegAt;
    if i < |s| {
      var g := SegAt(t, s, i);
      SegmentsPartition(t, s, i + |g.text|);
      assert s[i..] == s[i..i + |g.text|] + s[i + |g.text|..];
    }
  }

  /** The words of a line outside its literals and its comment. */
  function WordsIn(gs: seq<Seg>): seq<string> {
    if gs == [] then []
    else if gs[0].Word? then [gs[0].text] + WordsIn(gs[1..])
    else WordsIn(gs[1..])
  }

  lemma NoMacroSeg(t: Table, s: string, i: nat)
    requires i < |s|
    ensures var g := SegAt([], s, i);
      (g.Word? ==> Find(t, g.text).None?)
      ==> SegAt(t, s, i) == g && Image(t, g) == g.text && Errors(t, g) == 0
  {
    hide WordEnd, SkipBlanks, ReadArgs, StringEnd;
  }

  lemma {:induction false} NoMacroSplit(t: Table, s: string, i: nat)
    requires i <= |s|
    requires forall w :: w in WordsIn(Split([], s, i)) ==> Find(t, w).None?
    ensures Split(t, s, i) == Split([], s, i)
    ensures Images(t, Split(t, s, i)) == s[i..] && ErrorCount(t, Split(t, s, i)) == 0
    decreases |s| - i
  {
    hide SegAt, Image, Errors;
    if i < |s| {
      var g := SegAt([], s, i);
      var rest := Split([], s, i + |g.text|);
      var all := Split([], s, i);
      assert all[0] == g && all[1..] == rest;
      if g.Word? { assert WordsIn(all)[0] == g.text; }
      NoMacroSeg(t, s, i);
      forall w | w in WordsIn(rest)
        ensures w in WordsIn(all)
      {
      }
      NoMacroSplit(t, s, i + |g.text|);
      assert s[i..] == s[i..i + |g.text|] + s[i + |g.text|..];
    }
  }

  /** A line in which no word outside literals and comments names a macro is left as it is. */
  lemma ExpandIdentity(t: Table, line: string)
    requires forall w :: w in WordsIn(Split([], line, 0)) ==> Find(t, w).None?
    ensures Expand(t, line) == Expanded(line, 0)
  {
    NoMacroSplit(t, line, 0);
    assert line[0..] == line;
  }

  // -------------------------------------------------------------- no rescanning

  /** The words that the segments of a line name: those looked up.  Words in literals and
      comments are not among them, and neither are words in the arguments of invocations. */
  function NamedIn(gs: seq<Seg>): seq<string> {
    if gs == [] then []
    else (match gs[0]
          case Word(w) => [w]
          case Invocation(name, _, _) => [name]
          case _ => []) + NamedIn(gs[1..])
  }

  /** A segment depends on nothing of the table but the macro that it names. */
  lemma SegLocal(t: Table, t': Table, s: string, i: nat)
    requires i < |s|
    requires forall w :: w in NamedIn([SegAt(t, s, i)]) ==> Find(t, w) == Find(t', w)
    ensures var g := SegAt(t, s, i);
      SegAt(t', s, i) == g && Image(t', g) == Image(t, g) && Errors(t', g) == Errors(t, g)
  {
    hide WordEnd, SkipBlanks, ReadArgs, StringEnd, Substitute, Find;
    var g := SegAt(t, s, i);
    assert [g][1..] == [];
    if g.Word? {
      assert NamedIn([g])[0] == g.text;
    } else if g.Invocation? {
      assert NamedIn([g])[0] == g.name;
    }
  }

  lemma SplitStep(t: Table, s: string, i: nat)
    requires i < |s|
    ensures i + |SegAt(t, s, i).text| <= |s|
    ensures Split(t, s, i) == [SegAt(t, s, i)] + Split(t, s, i + |SegAt(t, s, i).text|)
  {
    hide SegAt;
  }

  lemma ImagesStep(t: Table, g: Seg, rest: seq<Seg>)
    ensures Images(t, [g] + rest) == Image(t, g) + Images(t, rest)
    ensures ErrorCount(t, [g] + rest) == Errors(t, g) + ErrorCount(t, rest)
  {
    hide Image, Errors;
    assert ([g] + rest)[1..] == rest;
  }

  lemma {:induction false} SplitLocal(t: Table, t': Table, s: string, i: nat)
    requires i <= |s|
    requires forall w :: w in NamedIn(Split(t, s, i)) ==> Find(t, w) == Find(t', w)
    ensures var gs := Split(t, s, i);
      Split(t', s, i) == gs && Images(t', gs) == Images(t, gs) && ErrorCount(t', gs) == ErrorCount(t, gs)
    decreases |s| - i
  {
    hide SegAt, Image, Errors, Find;
    if i < |s| {
      hide Split, NamedIn, Images, ErrorCount;
      var g := SegAt(t, s, i);
      var rest := Split(t, s, i + |g.text|);
      SplitStep(t, s, i);
      NamedStep(g, rest);
      SegLocal(t, t', s, i);
      SplitLocal(t, t', s, i + |g.text|);
      SplitStep(t', s, i);
      ImagesStep(t, g, rest);
      ImagesStep(t', g, rest);
    }
  }

  lemma NamedStep(g: Seg, rest: seq<Seg>)
    ensures NamedIn([g] + rest) == NamedIn([g]) + NamedIn(rest)
  {
    assert ([g] + rest)[1..] == rest && [g][1..] == [];
  }

  /** Nothing that is put into a line is looked at again, and neither are arguments: the
      result depends only on the macros that the words of the line itself name.  Whatever
      words their bodies, or the arguments, hold, what these mean makes no difference. */
  lemma BodyNotRescanned(t: Table, t': Table, line: string)
    requires forall w :: w in NamedIn(Split(t, line, 0)) ==> Find(t, w) == Find(t', w)
    ensures Expand(t', line) == Expand(t, line)
  {
    SplitLocal(t, t', line, 0);
  }

  // ------------------------------------------------------------------- arguments

  function Join(args: seq<string>): string {
    if args == [] then "" else if |args| == 1 then args[0] else args[0] + "," + Join(args[1..])
  }

  lemma JoinFirst(arg: string, args: seq<string>)
    requires args != []
    ensures Join([arg] + args) == arg + "," + Join(args)
  {
    assert ([arg] + args)[1..] == args;
  }

  lemma JoinOne(arg: string)
    ensures Join([arg]) == arg
  {
  }

  lemma CharMoved(cur: string, s: string, j: nat)
    requires j < |s|
    ensures forall e :: j < e <= |s| ==> (cur + [s[j]]) + s[j + 1..e] == cur + s[j..e]
  {
    forall e | j < e <= |s| ensures (cur + [s[j]]) + s[j + 1..e] == cur + s[j..e] {
      assert s[j..e] == [s[j]] + s[j + 1..e];
    }
  }

  /** The nesting after a character that is neither a closing end nor a separator. */
  function Nesting(c: char, depth: nat): nat {
    if c == '(' then depth + 1 else if c == ')' && depth > 0 then depth - 1 else depth
  }

  lemma ArgGoesOn(s: string, j: nat, depth: nat, cur: string)
    requires j < |s| && depth >= 1 && (depth == 1 ==> s[j] != ')' && s[j] != ',')
    ensures ReadArgs(s, j, depth, cur) == ReadArgs(s, j + 1, Nesting(s[j], depth), cur + [s[j]])
    ensures Closed(s, j, depth) <==> Closed(s, j + 1, Nesting(s[j], depth))
  {
  }

  lemma ArgEnds(s: string, j: nat, cur: string)
    requires j < |s|
    ensures s[j] == ')' ==> ReadArgs(s, j, 1, cur) == Args([cur], j + 1) && Closed(s, j, 1)
    ensures s[j] == ',' ==>
              var r := ReadArgs(s, j + 1, 1, "");
              ReadArgs(s, j, 1, cur) == Args([cur] + r.args, r.next) && (Closed(s, j, 1) <==> Closed(s, j + 1, 1))
  {
  }

  /** The arguments are the text up to the closing parenthesis, cut at commas; an
      invocation that the line does not close takes the rest of the line. */
  lemma {:induction false} ArgsJoin(s: string, j: nat, depth: nat, cur: string)
    requires j <= |s| && depth >= 1
    ensures var r := ReadArgs(s, j, depth, cur);
      if Closed(s, j, depth) then
        r.next > j && s[r.next - 1] == ')' && r.args != [] && Join(r.args) == cur + s[j..r.next - 1]
      else r.next == |s|
    decreases |s| - j
  {
    if j < |s| {
      hide Join, ReadArgs, Closed;
      if depth > 1 || (s[j] != ')' && s[j] != ',') {
        CharMoved(cur, s, j);
        ArgGoesOn(s, j, depth, cur);
        ArgsJoin(s, j + 1, Nesting(s[j], depth), cur + [s[j]]);
      } else if s[j] == ')' {
        ArgEnds(s, j, cur);
        JoinOne(cur);
      } else {
        ArgEnds(s, j, cur);
        ArgsJoin(s, j + 1, 1, "");
        var r := ReadArgs(s, j + 1, 1, "");
        if Closed(s, j, depth) {
          JoinFirst(cur, r.args);
          assert s[j..r.next - 1] == "," + s[j + 1..r.next - 1];
        }
      }
    }
  }

  /** Does the invocation close on this line? */
  predicate Closed(s: string, j: nat, depth: nat)
    requires j <= |s| && depth >= 1
    decreases |s| - j
  {
    if j == |s| then false
    else if s[j] == '(' then Closed(s, j + 1, depth + 1)
    else if s[j] == ')' then depth == 1 || Closed(s, j + 1, depth - 1)
    else Closed(s, j + 1, depth)
  }

  /** The commas from `j` on that are in no inner parentheses, up to the parenthesis that
      closes the invocation, or the end of the line. */
  function TopCommas(s: string, j: nat, depth: nat): nat
    requires j <= |s| && depth >= 1
    decreases |s| - j
  {
    if j == |s| then 0
    else if s[j] == '(' then TopCommas(s, j + 1, depth + 1)
    else if s[j] == ')' then if depth == 1 then 0 else TopCommas(s, j + 1, depth - 1)
    else
      var here := if s[j] == ',' && depth == 1 then 1 else 0;
      here + TopCommas(s, j + 1, depth)
  }

  /** An invocation has one argument more than commas if it closes on the line.  If it does
      not, the unfinished argument does not count. */
  function ArgumentsAt(s: string, j: nat): nat
    requires j <= |s|
  {
    TopCommas(s, j, 1) + (if Closed(s, j, 1) then 1 else 0)
  }

  lemma {:induction false} ArgsCounted(s: string, j: nat, depth: nat, cur: string)
    requires j <= |s| && depth >= 1
    ensures |ReadArgs(s, j, depth, cur).args| == TopCommas(s, j, depth) + (if Closed(s, j, depth) then 1 else 0)
    decreases |s| - j
  {
    if j < |s| {
      if s[j] == '(' {
        ArgsCounted(s, j + 1, depth + 1, cur + [s[j]]);
      } else if s[j] == ')' {
        if depth > 1 { ArgsCounted(s, j + 1, depth - 1, cur + [s[j]]); }
      } else if s[j] == ',' && depth == 1 {
        ArgsCounted(s, j + 1, 1, "");
      } else {
        ArgsCounted(s, j + 1, depth, cur + [s[j]]);
      }
    }
  }

  /** A function-like macro is invoked at `i`, its arguments starting at `j`. */
  predicate InvokedAt(t: Table, s: string, i: nat, j: nat) {
    && i < j <= |s| && IsIdStart(s[i])
    && var e := WordEnd(s, i + 1);
       StartsCall(t, s, s[i..e], e) && j == SkipBlanks(s, e) + 1
  }

  function MacroAt(t: Table, s: string, i: nat, j: nat): Macro
    requires InvokedAt(t, s, i, j)
  {
    Lookup(t, s[i..WordEnd(s, i + 1)]).value
  }

  /** When an invocation is accepted, in terms of the text: exactly when the line holds as
      many arguments as the macro has parameters.  Then it becomes the body with those
      arguments; if not, it is one error and disappears.  An invocation that the line does
      not close takes all the rest of it. */
  lemma InvocationAccepted(t: Table, s: string, i: nat, j: nat)
    requires InvokedAt(t, s, i, j)
    ensures var g := SegAt(t, s, i);
      var m := MacroAt(t, s, i, j);
      && g.Invocation? && g.args == ReadArgs(s, j, 1, "").args
      && (Errors(t, g) == 0 <==> |m.params| == ArgumentsAt(s, j))
      && (|m.params| == ArgumentsAt(s, j) ==>
            |g.args| == |m.params| && Image(t, g) == Substitute(m.body, m.params, g.args))
      && (|m.params| != ArgumentsAt(s, j) ==> Errors(t, g) == 1 && Image(t, g) == "")
      && (!Closed(s, j, 1) ==> g.text == s[i..])
  {
    hide WordEnd, SkipBlanks, ReadArgs, StringEnd, Substitute, Find, TopCommas, Closed;
    ArgsCounted(s, j, 1, "");
    ArgsJoin(s, j, 1, "");
  }

  /** A macro without parameters can never be invoked with its parentheses closed: `F()`
      counts one empty argument.  Its invocation is an error exactly when it closes or has a
      comma outside inner parentheses.  Otherwise, not closed and without such a comma, it
      becomes the body and swallows the rest of the line. */
  lemma EmptyCallIsError(t: Table, s: string, i: nat, j: nat)
    requires InvokedAt(t, s, i, j) && MacroAt(t, s, i, j).params == []
    ensures var g := SegAt(t, s, i);
      && (Errors(t, g) > 0 <==> Closed(s, j, 1) || TopCommas(s, j, 1) > 0)
      && (Errors(t, g) > 0 ==> Image(t, g) == "")
      && (Errors(t, g) == 0 ==> g.text == s[i..] && Image(t, g) == MacroAt(t, s, i, j).body)
  {
    hide ReadArgs, TopCommas, Closed, SegAt, Errors, Image, InvokedAt, MacroAt, Substitute;
    InvocationAccepted(t, s, i, j);
    var m := MacroAt(t, s, i, j);
    if |m.params| == ArgumentsAt(s, j) {
      assert SegAt(t, s, i).args == [];
      SubstituteIdentity(m.body, []);
    }
  }

  // --------------------------------------------------------- substitution at work

  lemma {:induction false} PiecesPartition(b: string, k: nat, params: seq<string>)
    requires k <= |b|
    ensures PieceImages(Pieces(b, k), params, params) == b[k..]
    decreases |b| - k
  {
    hide PieceEnd, IndexOf;
    if k < |b| {
      var e := PieceEnd(b, k);
      PiecesPartition(b, e, params);
      assert b[k..] == b[k..e] + b[e..];
    }
  }

  /** Parameters that stand for themselves leave the body as it is: nothing but the
      parameters is replaced, and nothing is lost between them. */
  lemma SubstituteIdentity(body: string, params: seq<string>)
    ensures Substitute(body, params, params) == body
  {
    PiecesPartition(body, 0, params);
    assert body[0..] == body;
  }

  /** For example, `F()`. */
  lemma EmptyCallExample(t: Table)
    requires Find(t, "F").Some? && Find(t, "F").value.isFunc && Find(t, "F").value.params == []
    ensures Expand(t, "F()") == Expanded("", 1)
  {
    var s := "F()";
    assert WordEnd(s, 1) == 1 && s[0..1] == "F" && SkipBlanks(s, 1) == 1;
    assert ReadArgs(s, 2, 1, "") == Args([""], 3);
    var g := Invocation("F", [""], s[0..3]);
    assert SegAt(t, s, 0) == g;
    assert Split(t, s, 3) == [] && [g][1..] == [];
    assert Split(t, s, 0) == [g];
    assert Images(t, [g]) == "" && ErrorCount(t, [g]) == 1;
  }
}
