/** Edit distance on case-folded strings: the two-row computation with a cutoff, and the
    "did you mean" search built on it. */
module EditDistance {
  import opened Syntax
  import opened Chars

  // ---------------------------------------------------------------- edit scripts

  /** What a script does with the next character: keep it, put another in its place, drop
      it, or put a new one before it. */
  datatype Edit = Keep | Replace(c: char) | Delete | Insert(c: char)

  /** The string that `script` makes of `s`, worked out from the last edit backwards; none
      if the script does not fit. */
  function Apply(script: seq<Edit>, s: string): Option<string>
    decreases |script|
  {
    if script == [] then if s == "" then Some("") else None
    else
      var front, last := script[..|script| - 1], script[|script| - 1];
      if last.Insert? then Append(Apply(front, s), [last.c])
      else if s == "" then None
      else
        var init := s[..|s| - 1];
        match last
        case Keep => Append(Apply(front, init), [s[|s| - 1]])
        case Replace(c) => Append(Apply(front, init), [c])
        case _ => Apply(front, init)
  }

  function Append(s: Option<string>, t: string): Option<string> {
    if s.Some? then Some(s.value + t) else None
  }

  /** Everything but keeping costs one. */
  function Cost(script: seq<Edit>): nat
    decreases |script|
  {
    if script == [] then 0
    else Cost(script[..|script| - 1]) + (if script[|script| - 1].Keep? then 0 else 1)
  }

  // ------------------------------------------------------------- the recurrence

  function Min(a: int, b: int): int {
    if a < b then a else b
  }

  /** The distance between the first `i` characters of `a` and the first `j` of `b`. */
  function Lev(a: string, b: string, i: nat, j: nat): nat
    requires i <= |a| && j <= |b|
    decreases i + j
  {
    if i == 0 then j
    else if j == 0 then i
    else
      var change := Lev(a, b, i - 1, j - 1) + (if a[i - 1] == b[j - 1] then 0 else 1);
      Min(Min(Lev(a, b, i - 1, j) + 1, Lev(a, b, i, j - 1) + 1), change)
  }

  /** No script is shorter. */
  lemma {:induction false} LevIsLowerBound(a: string, b: string, i: nat, j: nat, script: seq<Edit>)
    requires i <= |a| && j <= |b| && Apply(script, a[..i]) == Some(b[..j])
    ensures Lev(a, b, i, j) <= Cost(script)
    decreases |script|
  {
    if script != [] {
      var front, last := script[..|script| - 1], script[|script| - 1];
      if last.Insert? {
        var r := Apply(front, a[..i]).value;
        Prefix(b, j, r, last.c);
        LevIsLowerBound(a, b, i, j - 1, front);
        LevGrows(a, b, i, j);
      } else {
        assert a[..i][..i - 1] == a[..i - 1];
        if last.Delete? {
          LevIsLowerBound(a, b, i - 1, j, front);
          LevGrows(a, b, i, j);
        } else {
          var c := if last.Keep? then a[i - 1] else last.c;
          var r := Apply(front, a[..i - 1]).value;
          Prefix(b, j, r, c);
          LevIsLowerBound(a, b, i - 1, j - 1, front);
          LevGrows(a, b, i, j);
        }
      }
    }
  }

  lemma Prefix(b: string, j: nat, r: string, c: char)
    requires j <= |b| && r + [c] == b[..j]
    ensures j > 0 && b[j - 1] == c && r == b[..j - 1]
  {
    assert |r| == j - 1 && (r + [c])[j - 1] == c;
    assert b[..j - 1] == (r + [c])[..j - 1];
  }

  /** One more character costs at most one edit. */
  lemma {:induction false} LevGrows(a: string, b: string, i: nat, j: nat)
    requires i <= |a| && j <= |b|
    ensures i > 0 ==> Lev(a, b, i, j) <= Lev(a, b, i - 1, j) + 1
    ensures j > 0 ==> Lev(a, b, i, j) <= Lev(a, b, i, j - 1) + 1
    ensures i > 0 && j > 0 ==>
      Lev(a, b, i, j) <= Lev(a, b, i - 1, j - 1) + (if a[i - 1] == b[j - 1] then 0 else 1)
  {
    LevEdges(a, b, i, j);
    if i > 0 { LevEdges(a, b, i - 1, j); }
  }

  lemma LevEdges(a: string, b: string, i: nat, j: nat)
    requires i <= |a| && j <= |b|
    ensures i == 0 ==> Lev(a, b, i, j) == j
    ensures j == 0 ==> Lev(a, b, i, j) == i
  {
  }

  /** And some script is as short. */
  lemma {:induction false} LevIsReached(a: string, b: string, i: nat, j: nat) returns (script: seq<Edit>)
    requires i <= |a| && j <= |b|
    ensures Apply(script, a[..i]) == Some(b[..j]) && Cost(script) == Lev(a, b, i, j)
    decreases i + j
  {
    if i == 0 && j == 0 {
      script := [];
    } else if i == 0 || (j > 0 && Lev(a, b, i, j) == Lev(a, b, i, j - 1) + 1) {
      var front := LevIsReached(a, b, i, j - 1);
      script := front + [Insert(b[j - 1])];
      assert script[..|script| - 1] == front;
      assert b[..j] == b[..j - 1] + [b[j - 1]];
    } else if j == 0 || Lev(a, b, i, j) == Lev(a, b, i - 1, j) + 1 {
      var front := LevIsReached(a, b, i - 1, j);
      script := front + [Delete];
      assert script[..|script| - 1] == front && a[..i][..i - 1] == a[..i - 1];
    } else {
      var front := LevIsReached(a, b, i - 1, j - 1);
      script := front + [if a[i - 1] == b[j - 1] then Keep else Replace(b[j - 1])];
      assert script[..|script| - 1] == front && a[..i][..i - 1] == a[..i - 1] && b[..j] == b[..j - 1] + [b[j - 1]];
    }
  }

  // ------------------------------------------------------------- case and distance

  function Lower(c: char): char {
    if 'A' <= c <= 'Z' then (c as int + 32) as char else c
  }

  /** Capitals become the letters they are capitals of, and nothing else changes. */
  lemma LowerSpelled(k: nat, c: char)
    requires k < 26
    ensures Lower("ABCDEFGHIJKLMNOPQRSTUVWXYZ"[k]) == "abcdefghijklmnopqrstuvwxyz"[k]
    ensures c !in CAPITALS ==> Lower(c) == c
  {
    CapitalSpelled(c);
  }

  function Folded(s: string): (r: string)
    ensures |r| == |s|
  {
    seq(|s|, i requires 0 <= i < |s| => Lower(s[i]))
  }

  /** The distance of two strings whatever their case. */
  function Distance(a: string, b: string): nat {
    Lev(Folded(a), Folded(b), |a|, |b|)
  }

  /** The distance is the least cost of any edit script between the folded strings. */
  lemma DistanceIsMinimum(a: string, b: string)
    ensures exists script :: Apply(script, Folded(a)) == Some(Folded(b)) && Cost(script) == Distance(a, b)
    ensures forall script :: Apply(script, Folded(a)) == Some(Folded(b)) ==> Distance(a, b) <= Cost(script)
  {
    hide Apply, Cost, Lev, Folded;
    var fa, fb := Folded(a), Folded(b);
    assert fa[..|a|] == fa && fb[..|b|] == fb;
    var best := LevIsReached(fa, fb, |a|, |b|);
    forall script | Apply(script, fa) == Some(fb)
      ensures Distance(a, b) <= Cost(script)
    {
      LevIsLowerBound(fa, fb, |a|, |b|, script);
    }
  }

  // --------------------------------------------------------------- the cutoff

  /** Strings whose lengths differ by more than the cutoff are further apart than it. */
  lemma {:induction false} LevAtLeastLengths(a: string, b: string, i: nat, j: nat)
    requires i <= |a| && j <= |b|
    ensures Lev(a, b, i, j) >= i - j && Lev(a, b, i, j) >= j - i
    decreases i + j
  {
    if i > 0 && j > 0 {
      LevAtLeastLengths(a, b, i - 1, j);
      LevAtLeastLengths(a, b, i, j - 1);
      LevAtLeastLengths(a, b, i - 1, j - 1);
    }
  }

  ghost predicate RowAbove(a: string, b: string, i: nat, c: int)
    requires i <= |a|
  {
    forall j :: 0 <= j <= |b| ==> Lev(a, b, i, j) > c
  }

  lemma {:induction false} NextRowAbove(a: string, b: string, i: nat, c: int, j: nat)
    requires i < |a| && j <= |b| && RowAbove(a, b, i, c)
    ensures Lev(a, b, i + 1, j) > c
    decreases j
  {
    assert Lev(a, b, i, 0) > c && Lev(a, b, i, j) > c;
    LevEdges(a, b, i, 0);
    LevEdges(a, b, i + 1, 0);
    if j > 0 { NextRowAbove(a, b, i, c, j - 1); }
  }

  /** Once a whole row is above the cutoff every later row is. */
  lemma {:induction false} RowsStayAbove(a: string, b: string, i: nat, c: int, k: nat)
    requires i <= k <= |a| && RowAbove(a, b, i, c)
    ensures RowAbove(a, b, k, c)
    decreases k - i
  {
    hide Lev;
    if i < k {
      var next := i + 1;
      forall j | 0 <= j <= |b|
        ensures Lev(a, b, next, j) > c
      {
        NextRowAbove(a, b, i, c, j);
      }
      RowsStayAbove(a, b, i + 1, c, k);
    }
  }

  // ------------------------------------------------------------------ the methods

  /** The cell of the next row, from the three cells around it. */
  lemma Cell(a: string, b: string, i: nat, j: nat)
    requires 0 < i <= |a| && 0 < j <= |b|
    ensures Lev(a, b, i, j) ==
      Min(Min(Lev(a, b, i - 1, j) + 1, Lev(a, b, i, j - 1) + 1),
          Lev(a, b, i - 1, j - 1) + (if a[i - 1] == b[j - 1] then 0 else 1))
  {
  }

  /** Fills `curr` with row `i`, given row `i - 1` in `prev`, and returns its least cell. */
  method FillRow(a: string, b: string, prev: array<int>, curr: array<int>, i: nat) returns (rowMin: int)
    requires 0 < i <= |a| && prev != curr && prev.Length == curr.Length == |b| + 1
    requires forall j :: 0 <= j <= |b| ==> prev[j] == Lev(Folded(a), Folded(b), i - 1, j)
    modifies curr
    ensures forall j :: 0 <= j <= |b| ==> curr[j] == Lev(Folded(a), Folded(b), i, j)
    ensures forall j :: 0 <= j <= |b| ==> rowMin <= Lev(Folded(a), Folded(b), i, j)
    ensures exists j :: 0 <= j <= |b| && rowMin == Lev(Folded(a), Folded(b), i, j)
  {
    hide Lev, Folded;
    ghost var fa, fb := Folded(a), Folded(b);
    LevEdges(fa, fb, i, 0);
    curr[0] := i;
    rowMin := curr[0];
    ghost var least := 0;
    for j := 1 to |b| + 1
      invariant forall k :: 0 <= k <= |b| ==> prev[k] == Lev(fa, fb, i - 1, k)
      invariant forall k :: 0 <= k < j ==> curr[k] == Lev(fa, fb, i, k) && rowMin <= curr[k]
      invariant 0 <= least < j && rowMin == Lev(fa, fb, i, least)
    {
      FoldedAt(a, i - 1);
      FoldedAt(b, j - 1);
      Cell(fa, fb, i, j);
      var cost := if Lower(a[i - 1]) == Lower(b[j - 1]) then 0 else 1;
      var x := prev[j] + 1;
      var y := curr[j - 1] + 1;
      var z := prev[j - 1] + cost;
      var m := if x < y then x else y;
      if z < m { m := z; }
      curr[j] := m;
      if m < rowMin {
        rowMin := m;
        least := j;
      }
    }
  }

  lemma FoldedAt(s: string, i: nat)
    requires i < |s|
    ensures Folded(s)[i] == Lower(s[i])
  {
  }

  /** With a positive cutoff the result is the distance if that is within the cutoff, and
      anything above the cutoff if not; without one it is the distance. */
  method Levenshtein(a: string, b: string, cutoff: int) returns (d: int)
    ensures if cutoff > 0 && Distance(a, b) > cutoff then d > cutoff else d == Distance(a, b)
  {
    hide Lev, Folded;
    ghost var fa, fb := Folded(a), Folded(b);
    LevEdges(fa, fb, |a|, |b|);
    if |a| == 0 { return |b|; }
    if |b| == 0 { return |a|; }
    LevAtLeastLengths(fa, fb, |a|, |b|);
    if cutoff > 0 && (|a| - |b| > cutoff || |b| - |a| > cutoff) { return cutoff + 1; }
    var prev := new int[|b| + 1](j => j);
    var curr := new int[|b| + 1](_ => 0);
    FirstRow(fa, fb);
    for i := 1 to |a| + 1
      invariant prev != curr && prev.Length == curr.Length == |b| + 1
      invariant fresh(prev) && fresh(curr)
      invariant forall j :: 0 <= j <= |b| ==> prev[j] == Lev(fa, fb, i - 1, j)
    {
      var rowMin := FillRow(a, b, prev, curr, i);
      if cutoff > 0 && rowMin > cutoff {
        RowsStayAbove(fa, fb, i, cutoff, |a|);
        return cutoff + 1;
      }
      prev, curr := curr, prev;
    }
    d := prev[|b|];
  }

  lemma FirstRow(a: string, b: string)
    ensures forall j :: 0 <= j <= |b| ==> Lev(a, b, 0, j) == j
  {
  }

  // ---------------------------------------------------------------- suggestions

  /** Short names only get suggestions one edit away. */
  function Limit(needle: string, maxDistance: int): int {
    if |needle| <= 2 && maxDistance > 1 then 1 else maxDistance
  }

  predicate Near(needle: string, candidate: Option<string>, limit: int) {
    candidate.Some? && Distance(needle, candidate.value) <= limit
  }

  /** `k` is the first of the nearest candidates. */
  ghost predicate IsFirstNearest(needle: string, candidates: seq<Option<string>>, k: nat) {
    && k < |candidates| && candidates[k].Some?
    && (forall i :: 0 <= i < |candidates| && candidates[i].Some? ==>
          Distance(needle, candidates[k].value) <= Distance(needle, candidates[i].value))
    && (forall i :: 0 <= i < k && candidates[i].Some? ==>
          Distance(needle, candidates[k].value) < Distance(needle, candidates[i].value))
  }

  /** The first of the nearest candidates within the limit; none exactly when there is no
      needle or no candidate is near enough. */
  method DidYouMean(needle: Option<string>, candidates: seq<Option<string>>, maxDistance: int)
    returns (r: Option<string>)
    ensures needle.None? || needle.value == "" ==> r.None?
    ensures needle.Some? && needle.value != "" ==>
      var limit := Limit(needle.value, maxDistance);
      && (r.None? <==> forall i :: 0 <= i < |candidates| ==> !Near(needle.value, candidates[i], limit))
      && (r.Some? ==> exists k: nat ::
            IsFirstNearest(needle.value, candidates, k) && r == candidates[k] && Near(needle.value, r, limit))
  {
    hide Distance;
    if needle.None? || needle.value == "" || |candidates| == 0 { return None; }
    var name := needle.value;
    var best := maxDistance + 1;
    var limit := if |name| <= 2 && maxDistance > 1 then 1 else maxDistance;
    r := None;
    ghost var k := 0;
    for i := 0 to |candidates|
      invariant best > limit ==> forall j :: 0 <= j < i ==> !Near(name, candidates[j], limit)
      invariant best <= limit ==> k < i && r == candidates[k] && r.Some? && best == Distance(name, r.value)
      invariant best <= limit ==> forall j :: 0 <= j < i && candidates[j].Some? ==>
                  best <= Distance(name, candidates[j].value) && (j < k ==> best < Distance(name, candidates[j].value))
      invariant best <= maxDistance + 1
    {
      if candidates[i].Some? {
        var d := Levenshtein(name, candidates[i].value, limit);
        if d < best {
          best, r := d, candidates[i];
          k := i;
        }
      }
    }
    if best > limit { return None; }
    assert IsFirstNearest(name, candidates, k);
  }
}
