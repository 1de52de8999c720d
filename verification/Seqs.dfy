/** Small facts about sequences that several phases use. */
module Seqs {

  /** `part` stands in `whole` at position `i`. */
  predicate At<T(==)>(whole: seq<T>, i: nat, part: seq<T>) {
    i + |part| <= |whole| && whole[i..i + |part|] == part
  }

  lemma AtSplit<T>(whole: seq<T>, i: nat, a: seq<T>, b: seq<T>)
    requires At(whole, i, a + b)
    ensures At(whole, i, a) && At(whole, i + |a|, b)
  {
    var s := whole[i..i + |a + b|];
    assert s[..|a|] == a && s[|a|..] == b;
  }

  lemma AtElement<T>(whole: seq<T>, i: nat, part: seq<T>, k: nat)
    requires At(whole, i, part) && k < |part|
    ensures i + k < |whole| && whole[i + k] == part[k]
  {
    assert whole[i..i + |part|][k] == whole[i + k];
  }

  lemma AtElements<T>(whole: seq<T>, i: nat, part: seq<T>)
    requires At(whole, i, part)
    ensures forall j :: i <= j < i + |part| ==> whole[j] == part[j - i]
  {
    forall j | i <= j < i + |part|
      ensures whole[j] == part[j - i]
    {
      AtElement(whole, i, part, j - i);
    }
  }

  predicate NoDup<T(==)>(s: seq<T>) {
    forall i, j :: 0 <= i < j < |s| ==> s[i] != s[j]
  }

  /** A sequence without repetitions is no longer than any sequence that covers it. */
  lemma {:induction false} NoDupBound<T>(s: seq<T>, cover: seq<T>)
    requires NoDup(s)
    requires forall x :: x in s ==> x in cover
    ensures |s| <= |cover|
  {
    if s != [] {
      var x := s[|s| - 1];
      var init := s[..|s| - 1];
      assert x in s;
      var k :| 0 <= k < |cover| && cover[k] == x;
      var rest := cover[..k] + cover[k + 1..];
      forall y | y in init
        ensures y in rest
      {
        assert y in s;
        var j :| 0 <= j < |cover| && cover[j] == y;
        assert y != x;
        if j < k { assert rest[j] == y; } else { assert rest[j - 1] == y; }
      }
      NoDupBound(init, rest);
    }
  }
}
