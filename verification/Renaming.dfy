/** Macro parameters are bound names: renaming them changes nothing.  Substitution that
    replaced parameters one after the other, or looked at inserted text again, would not
    have this property. */
module Renaming {
  import opened Seqs
  import opened Chars
  import opened ExpandSpec

  function Concat(ps: seq<string>): string {
    if ps == [] then "" else ps[0] + Concat(ps[1..])
  }

  /** A word, or one character that does not start a word. */
  predicate IsPiece(p: string) {
    IsWord(p) || (|p| == 1 && !IsIdStart(p[0]))
  }

  /** A body can be cut like this: every word is as long as it can be. */
  predicate IsCut(ps: seq<string>) {
    && (forall i :: 0 <= i < |ps| ==> IsPiece(ps[i]))
    && (forall i :: 0 <= i < |ps| - 1 && IsWord(ps[i]) ==> !IsIdCont(ps[i + 1][0]))
  }

  lemma {:induction false} PiecesAreCut(b: string, k: nat)
    requires k <= |b|
    ensures IsCut(Pieces(b, k)) && Concat(Pieces(b, k)) == b[k..]
    ensures k < |b| ==> Pieces(b, k) != [] && Pieces(b, k)[0] != "" && Pieces(b, k)[0][0] == b[k]
    decreases |b| - k
  {
    if k < |b| {
      var e := PieceEnd(b, k);
      var rest := Pieces(b, e);
      PiecesAreCut(b, e);
      assert Pieces(b, k) == [b[k..e]] + rest && b[k..] == b[k..e] + b[e..];
      assert IsPiece(b[k..e]);
      assert ([b[k..e]] + rest)[1..] == rest;
    }
  }

  /** The first piece is found again. */
  lemma FirstPiece(s: string, k: nat, p: string, next: string)
    requires IsPiece(p) && k <= |s| && s[k..] == p + next
    requires IsWord(p) && next != "" ==> !IsIdCont(next[0])
    ensures k + |p| <= |s| && s[k..k + |p|] == p && s[k + |p|..] == next && k < |s| && PieceEnd(s, k) == k + |p|
  {
    var e := k + |p|;
    assert s[k..][..|p|] == p && s[k..][|p|..] == next;
    assert s[k..e] == p && s[e..] == next;
    assert forall j :: k <= j < e ==> s[j] == p[j - k];
    if next != "" { assert s[e..][0] == next[0]; }
    if IsWord(p) { WordEndAt(s, k + 1, e); }
  }

  /** A cut is the only one of the text it makes. */
  lemma {:induction false} CutAgain(s: string, k: nat, ps: seq<string>)
    requires IsCut(ps) && k <= |s| && s[k..] == Concat(ps)
    ensures Pieces(s, k) == ps
    decreases |ps|
  {
    hide PieceEnd, IsWord, IsIdCont;
    if ps != [] {
      var p, next := ps[0], Concat(ps[1..]);
      if |ps| > 1 {
        assert IsPiece(ps[1]) && ps[1..][0] == ps[1];
        PieceStarts(ps[1], Concat(ps[1..][1..]));
      }
      FirstPiece(s, k, p, next);
      CutAgain(s, k + |p|, ps[1..]);
    }
  }

  lemma PieceStarts(p: string, next: string)
    requires IsPiece(p)
    ensures p + next != "" && (p + next)[0] == p[0]
  {
  }

  function ImageOfEach(ps: seq<string>, params: seq<string>, args: seq<string>): (r: seq<string>)
    requires |params| == |args|
    ensures |r| == |ps| && forall i :: 0 <= i < |ps| ==> r[i] == PieceImage(ps[i], params, args)
  {
    if ps == [] then [] else [PieceImage(ps[0], params, args)] + ImageOfEach(ps[1..], params, args)
  }

  lemma {:induction false} ConcatOfImages(ps: seq<string>, params: seq<string>, args: seq<string>)
    requires |params| == |args|
    ensures Concat(ImageOfEach(ps, params, args)) == PieceImages(ps, params, args)
  {
    hide PieceImage;
    if ps != [] {
      ConcatOfImages(ps[1..], params, args);
      assert ImageOfEach(ps, params, args)[1..] == ImageOfEach(ps[1..], params, args);
    }
  }

  /** New names for parameters: distinct words that a parameter buffer holds. */
  predicate AreNames(names: seq<string>) {
    NoDup(names) && forall n :: n in names ==> IsWord(n) && |n| < PARAM_LIMIT
  }

  lemma RenamedIsCut(ps: seq<string>, params: seq<string>, names: seq<string>)
    requires IsCut(ps) && |params| == |names| && AreNames(names)
    ensures IsCut(ImageOfEach(ps, params, names))
  {
    hide IndexOf;
    var qs := ImageOfEach(ps, params, names);
    forall i | 0 <= i < |ps|
      ensures IsPiece(qs[i]) && (IsWord(qs[i]) <==> IsWord(ps[i])) && (!IsWord(ps[i]) ==> qs[i] == ps[i])
    {
      RenamedPiece(ps[i], params, names);
    }
    forall i | 0 <= i < |qs| - 1 && IsWord(qs[i])
      ensures !IsIdCont(qs[i + 1][0])
    {
      assert IsPiece(ps[i + 1]) && !IsIdCont(ps[i + 1][0]);
    }
  }

  lemma RenamedPiece(p: string, params: seq<string>, names: seq<string>)
    requires IsPiece(p) && |params| == |names| && AreNames(names)
    ensures var q := PieceImage(p, params, names);
      IsPiece(q) && (IsWord(q) <==> IsWord(p)) && (!IsWord(p) ==> q == p)
  {
    hide IndexOf;
    var q := IndexOf(params, p);
    if q.Some? { assert names[q.value] in names; }
  }

  lemma {:induction false} FirstIndex(names: seq<string>, i: nat)
    requires NoDup(names) && i < |names|
    ensures IndexOf(names, names[i]).Some? && IndexOf(names, names[i]).value == i
  {
    if i > 0 {
      assert names[1..][i - 1] == names[i] && NoDup(names[1..]);
      FirstIndex(names[1..], i - 1);
    }
  }

  lemma TwiceIsOnce(p: string, params: seq<string>, names: seq<string>, args: seq<string>)
    requires IsPiece(p) && |params| == |names| == |args| && AreNames(names)
    requires p in names ==> p in params
    ensures PieceImage(PieceImage(p, params, names), names, args) == PieceImage(p, params, args)
  {
    var q := IndexOf(params, p);
    if q.Some? {
      FirstIndex(names, q.value);
      assert names[q.value] in names;
    }
  }

  lemma {:induction false} ImagesTwice(ps: seq<string>, params: seq<string>, names: seq<string>, args: seq<string>)
    requires |params| == |names| == |args| && AreNames(names)
    requires forall p :: p in ps ==> IsPiece(p) && (p in names ==> p in params)
    ensures PieceImages(ImageOfEach(ps, params, names), names, args) == PieceImages(ps, params, args)
  {
    hide PieceImage, IsPiece, AreNames;
    if ps != [] {
      var qs := ImageOfEach(ps, params, names);
      TwiceIsOnce(ps[0], params, names, args);
      ImagesTwice(ps[1..], params, names, args);
      assert qs[0] == PieceImage(ps[0], params, names) && qs[1..] == ImageOfEach(ps[1..], params, names);
    }
  }

  /** Renaming the parameters in a body, to names that mean nothing else in it, and then
      substituting for the new names, is substituting for the old ones. */
  lemma RenamingKeepsMeaning(body: string, params: seq<string>, names: seq<string>, args: seq<string>)
    requires |params| == |names| == |args| && AreNames(names)
    requires forall n :: n in names && n in Pieces(body, 0) ==> n in params
    ensures Substitute(Substitute(body, params, names), names, args) == Substitute(body, params, args)
  {
    hide Pieces, PieceImage, PieceImages, ImageOfEach, IsPiece, AreNames;
    var ps := Pieces(body, 0);
    var qs := ImageOfEach(ps, params, names);
    PiecesAreCut(body, 0);
    RenamedIsCut(ps, params, names);
    ConcatOfImages(ps, params, names);
    var renamed := Substitute(body, params, names);
    assert renamed[0..] == renamed;
    CutAgain(renamed, 0, qs);
    ImagesTwice(ps, params, names, args);
  }

  /** Parameters are replaced all at once: a body whose parameters are exchanged among each
      other in any way is got back by exchanging them the other way.  Replacing one after the
      other would merge them. */
  lemma SubstituteSwaps(body: string, params: seq<string>, names: seq<string>)
    requires |params| == |names| && AreNames(names)
    requires forall n :: n in names ==> n in params
    ensures Substitute(Substitute(body, params, names), names, params) == body
  {
    hide Substitute, Pieces, AreNames;
    RenamingKeepsMeaning(body, params, names, params);
    SubstituteIdentity(body, params);
  }
}
