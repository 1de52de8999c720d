/** The line expander as it runs: one pass over the characters of a line. */
module Expander {
  import opened Syntax
  import opened Chars
  import opened Macros
  import opened ExpandSpec

  method TakeWord(s: string, i: nat) returns (e: nat)
    requires i <= |s|
    ensures e == WordEnd(s, i)
  {
    e := i;
    while e < |s| && IsIdCont(s[e])
      invariant i <= e <= |s| && WordEnd(s, e) == WordEnd(s, i)
    {
      e := e + 1;
    }
  }

  method TakeBlanks(s: string, i: nat) returns (e: nat)
    requires i <= |s|
    ensures e == SkipBlanks(s, i)
  {
    e := i;
    while e < |s| && IsBlank(s[e])
      invariant i <= e <= |s| && SkipBlanks(s, e) == SkipBlanks(s, i)
    {
      e := e + 1;
    }
  }

  /** Collects arguments up to the closing parenthesis, or to the end of the line. */
  method TakeArgs(s: string, start: nat) returns (args: seq<string>, j: nat)
    requires start <= |s|
    ensures Args(args, j) == ReadArgs(s, start, 1, "")
  {
    j, args := start, [];
    var depth, cur := 1, "";
    ghost var all := ReadArgs(s, start, 1, "");
    while j < |s| && depth > 0
      invariant start <= j <= |s| && depth >= 0
      invariant depth > 0 ==> args + ReadArgs(s, j, depth, cur).args == all.args
      invariant depth > 0 ==> ReadArgs(s, j, depth, cur).next == all.next
      invariant depth == 0 ==> args == all.args && j == all.next
      decreases |s| - j, depth
    {
      var d := s[j];
      if d == '(' {
        depth := depth + 1;
        cur := cur + [d];
        j := j + 1;
      } else if d == ')' {
        depth := depth - 1;
        if depth == 0 { args := args + [cur]; } else { cur := cur + [d]; }
        j := j + 1;
      } else if d == ',' && depth == 1 {
        args := args + [cur];
        cur := "";
        j := j + 1;
      } else {
        cur := cur + [d];
        j := j + 1;
      }
    }
  }

  /** Copies a macro body, with the arguments in the places of the parameters. */
  method CopyBody(b: string, params: seq<string>, args: seq<string>) returns (out: string)
    requires |params| == |args|
    ensures out == Substitute(b, params, args)
  {
    hide PieceEnd, IndexOf, PieceImage;
    out := "";
    var k := 0;
    while k < |b|
      invariant k <= |b|
      invariant out + PieceImages(Pieces(b, k), params, args) == Substitute(b, params, args)
    {
      var e := TakePiece(b, k);
      var piece := b[k..e];
      assert Pieces(b, k) == [piece] + Pieces(b, e) && Pieces(b, k)[1..] == Pieces(b, e);
      var image := ImageOf(piece, params, args);
      Assoc(out, image, PieceImages(Pieces(b, e), params, args));
      out := out + image;
      k := e;
    }
  }

  /** The first parameter of that name decides. */
  method ImageOf(piece: string, params: seq<string>, args: seq<string>) returns (image: string)
    requires piece != "" && |params| == |args|
    ensures image == PieceImage(piece, params, args)
  {
    image := piece;
    if IsIdStart(piece[0]) && |piece| < PARAM_LIMIT {
      for q := 0 to |params|
        invariant image == piece && forall k :: 0 <= k < q ==> params[k] != piece
      {
        if params[q] == piece {
          FirstIndex(params, piece, q);
          return args[q];
        }
      }
    }
  }

  lemma {:induction false} FirstIndex(params: seq<string>, name: string, q: nat)
    requires q < |params| && params[q] == name && forall k :: 0 <= k < q ==> params[k] != name
    ensures IndexOf(params, name) == Some(q)
  {
    if q > 0 {
      assert forall k :: 0 <= k < q - 1 ==> params[1..][k] == params[k + 1];
      FirstIndex(params[1..], name, q - 1);
    }
  }

  method TakePiece(b: string, k: nat) returns (e: nat)
    requires k < |b|
    ensures e == PieceEnd(b, k) && k < e <= |b|
  {
    if IsIdStart(b[k]) { e := TakeWord(b, k + 1); } else { e := k + 1; }
  }

  /** What is still to come out from position `i`, inside a string literal or not. */
  ghost function Rest(t: Table, s: string, i: nat, inStr: bool): Expanded
    requires i <= |s|
  {
    if inStr then
      var e := StringEnd(s, i);
      Expanded(s[i..e] + Images(t, Split(t, s, e)), ErrorCount(t, Split(t, s, e)))
    else Expanded(Images(t, Split(t, s, i)), ErrorCount(t, Split(t, s, i)))
  }

  lemma Assoc(a: string, b: string, c: string)
    ensures a + (b + c) == (a + b) + c
  {
  }

  lemma Cut(s: string, i: nat, n: nat, e: nat)
    requires i <= n <= e <= |s|
    ensures s[i..e] == s[i..n] + s[n..e]
  {
  }

  lemma InString(t: Table, s: string, i: nat)
    requires i < |s|
    ensures var n := if s[i] == '\\' && i + 1 < |s| then i + 2 else i + 1;
      var r := Rest(t, s, n, s[i] != '"');
      Rest(t, s, i, true) == Expanded(s[i..n] + r.out, r.errs)
  {
    hide Split, Images, ErrorCount;
    var n := if s[i] == '\\' && i + 1 < |s| then i + 2 else i + 1;
    var e := StringEnd(s, i);
    if s[i] != '"' {
      assert e == StringEnd(s, n);
      Cut(s, i, n, e);
      Assoc(s[i..n], s[n..e], Images(t, Split(t, s, e)));
    }
  }

  lemma OutOfString(t: Table, s: string, i: nat)
    requires i < |s|
    ensures var g := SegAt(t, s, i);
      var r := Rest(t, s, i + |g.text|, false);
      Rest(t, s, i, false) == Expanded(Image(t, g) + r.out, Errors(t, g) + r.errs)
  {
    hide SegAt, Image, Errors;
    var g := SegAt(t, s, i);
    assert Split(t, s, i)[1..] == Split(t, s, i + |g.text|);
  }

  lemma QuoteStarts(t: Table, s: string, i: nat)
    requires i < |s| && s[i] == '"'
    ensures var r := Rest(t, s, i + 1, true);
      Rest(t, s, i, false) == Expanded(s[i..i + 1] + r.out, r.errs)
  {
    hide Split, Images, ErrorCount, StringEnd;
    OutOfString(t, s, i);
    var e := StringEnd(s, i + 1);
    QuotedSeg(t, s, i);
    Cut(s, i, i + 1, e);
    Assoc(s[i..i + 1], s[i + 1..e], Images(t, Split(t, s, e)));
  }

  lemma QuotedSeg(t: Table, s: string, i: nat)
    requires i < |s| && s[i] == '"'
    ensures var g := SegAt(t, s, i);
      var e := StringEnd(s, i + 1);
      i + |g.text| == e && Image(t, g) == s[i..e] && Errors(t, g) == 0
  {
    hide StringEnd;
  }

  method ExpandLine(t: Table, s: string) returns (out: string, errs: nat)
    ensures Expanded(out, errs) == Expand(t, s)
  {
    hide Split, Images, ErrorCount, WordEnd, SkipBlanks, ReadArgs, StringEnd, Substitute, Rest, Find, SegAt, Image,
         Errors;
    out, errs := "", 0;
    var i, inStr := 0, false;
    Start(t, s);
    ghost var all := Expand(t, s);
    while i < |s|
      invariant i <= |s|
      invariant out + Rest(t, s, i, inStr).out == all.out && errs + Rest(t, s, i, inStr).errs == all.errs
      decreases |s| - i
    {
      var c := s[i];
      if inStr {
        InString(t, s, i);
        var n := if c == '\\' && i + 1 < |s| then i + 2 else i + 1;
        Assoc(out, s[i..n], Rest(t, s, n, c != '"').out);
        out := out + s[i..n];
        i, inStr := n, c != '"';
      } else if c == '"' {
        QuoteStarts(t, s, i);
        Assoc(out, s[i..i + 1], Rest(t, s, i + 1, true).out);
        out := out + s[i..i + 1];
        i, inStr := i + 1, true;
      } else {
        OutOfString(t, s, i);
        var text, bad, n;
        if c == '/' && i + 1 < |s| && s[i + 1] == '/' {
          text, bad, n := s[i..], 0, |s|;
          CommentSeg(t, s, i);
        } else if IsIdStart(c) {
          text, bad, n := ExpandWord(t, s, i);
        } else {
          text, bad, n := s[i..i + 1], 0, i + 1;
          OtherSeg(t, s, i);
        }
        Assoc(out, text, Rest(t, s, n, false).out);
        out := out + text;
        errs := errs + bad;
        i := n;
      }
    }
    AtEnd(t, s, inStr);
  }

  lemma CommentSeg(t: Table, s: string, i: nat)
    requires i < |s| && s[i] == '/' && Have(s, i + 1, '/')
    ensures var g := SegAt(t, s, i);
      i + |g.text| == |s| && Image(t, g) == s[i..] && Errors(t, g) == 0
  {
  }

  lemma OtherSeg(t: Table, s: string, i: nat)
    requires i < |s| && s[i] != '"' && !(s[i] == '/' && Have(s, i + 1, '/')) && !IsIdStart(s[i])
    ensures var g := SegAt(t, s, i);
      |g.text| == 1 && Image(t, g) == s[i..i + 1] && Errors(t, g) == 0
  {
  }

  lemma Start(t: Table, s: string)
    ensures Rest(t, s, 0, false) == Expand(t, s)
  {
    hide Split, Images, ErrorCount;
  }

  lemma AtEnd(t: Table, s: string, inStr: bool)
    ensures Rest(t, s, |s|, inStr) == Expanded("", 0)
  {
  }

  /** A word: a macro is replaced, an invocation is read and substituted, anything else
      stays. */
  method ExpandWord(t: Table, s: string, i: nat) returns (text: string, errs: nat, next: nat)
    requires i < |s| && IsIdStart(s[i])
    ensures var g := SegAt(t, s, i);
      text == Image(t, g) && errs == Errors(t, g) && next == i + |g.text|
  {
    hide WordEnd, SkipBlanks, ReadArgs, StringEnd, Substitute, Find;
    var e := TakeWord(s, i + 1);
    var word := s[i..e];
    errs, next := 0, e;
    var m := if |word| < WORD_LIMIT then Find(t, word) else None;
    if m.Some? && !m.value.isFunc { return m.value.body, 0, e; }
    if m.Some? {
      var j := TakeBlanks(s, e);
      if j < |s| && s[j] == '(' {
        var args, k := TakeArgs(s, j + 1);
        next := k;
        if |args| == |m.value.params| {
          text := CopyBody(m.value.body, m.value.params, args);
        } else {
          text, errs := "", 1;
        }
        return;
      }
    }
    text := word;
  }
}
