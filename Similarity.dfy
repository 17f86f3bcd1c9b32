/** Character-level similarity of two words: the normalised Levenshtein
    ratio of `calculate_levenshtein_ratio` in mer-lev.py, together with the
    lower-casing and the edit distance it is built on. */
module Similarity {

  function Max(x: int, y: int): int
  {
    if x >= y then x else y
  }

  function Min3(x: int, y: int, z: int): int
  {
    if x <= y && x <= z then x else if y <= z then y else z
  }

  /** Lower-casing of one character (ASCII letters only). */
  function LowerChar(c: char): char
  {
    if 'A' <= c <= 'Z' then (c as int + 32) as char else c
  }

  /** Python's `str.lower()`, restricted to the length-preserving ASCII case
      mapping: every character is mapped on its own. */
  function Lower(s: string): (r: string)
    ensures |r| == |s|
    ensures forall k :: 0 <= k < |s| ==> r[k] == LowerChar(s[k])
  {
    if s == [] then [] else [LowerChar(s[0])] + Lower(s[1..])
  }

  lemma LowerIdempotent(s: string)
    ensures Lower(Lower(s)) == Lower(s)
  {
    var once := Lower(s);
    var twice := Lower(once);
    assert forall k :: 0 <= k < |s| ==> twice[k] == once[k];
  }

  /** The Levenshtein distance: the least number of single-character
      insertions, deletions and substitutions turning `a` into `b`, stated
      by the textbook recurrence on the last characters of `a` and `b`. */
  function Distance(a: string, b: string): nat
    decreases |a| + |b|
  {
    if |a| == 0 then |b|
    else if |b| == 0 then |a|
    else
      var i, j := |a| - 1, |b| - 1;
      Min3(Distance(a[..i], b) + 1,
           Distance(a, b[..j]) + 1,
           Distance(a[..i], b[..j]) + (if a[i] == b[j] then 0 else 1))
  }

  lemma {:induction false} DistanceSelf(a: string)
    ensures Distance(a, a) == 0
  {
    if |a| > 0 {
      DistanceSelf(a[..|a| - 1]);
    }
  }

  lemma {:induction false} DistanceSymmetric(a: string, b: string)
    decreases |a| + |b|
    ensures Distance(a, b) == Distance(b, a)
  {
    if |a| > 0 && |b| > 0 {
      var i, j := |a| - 1, |b| - 1;
      DistanceSymmetric(a[..i], b);
      DistanceSymmetric(a, b[..j]);
      DistanceSymmetric(a[..i], b[..j]);
    }
  }

  /** Substituting position by position and then inserting or deleting the
      rest never takes more edits than the longer word has characters. */
  lemma {:induction false} DistanceAtMostLonger(a: string, b: string)
    decreases |a| + |b|
    ensures Distance(a, b) <= Max(|a|, |b|)
  {
    if |a| > 0 && |b| > 0 {
      DistanceAtMostLonger(a[..|a| - 1], b[..|b| - 1]);
    }
  }

  /** Each edit changes the length by at most one. */
  lemma {:induction false} DistanceAtLeastLengthGap(a: string, b: string)
    decreases |a| + |b|
    ensures Distance(a, b) >= |a| - |b| && Distance(a, b) >= |b| - |a|
  {
    if |a| > 0 && |b| > 0 {
      var i, j := |a| - 1, |b| - 1;
      DistanceAtLeastLengthGap(a[..i], b);
      DistanceAtLeastLengthGap(a, b[..j]);
      DistanceAtLeastLengthGap(a[..i], b[..j]);
    }
  }

  /** The distance is zero exactly for equal words. */
  lemma {:induction false} DistanceZeroIff(a: string, b: string)
    decreases |a| + |b|
    ensures Distance(a, b) == 0 <==> a == b
  {
    if a == b {
      DistanceSelf(a);
    }
    if |a| > 0 && |b| > 0 && Distance(a, b) == 0 {
      var i, j := |a| - 1, |b| - 1;
      DistanceZeroIff(a[..i], b[..j]);
      assert a == a[..i] + [a[i]] && b == b[..j] + [b[j]];
    }
  }

  /** One step of the recurrence, on the prefixes `a[..i]` and `b[..j]`. */
  lemma DistanceOfPrefixes(a: string, b: string, i: nat, j: nat)
    requires 0 < i <= |a| && 0 < j <= |b|
    ensures Distance(a[..i], b[..j]) ==
      Min3(Distance(a[..i - 1], b[..j]) + 1,
           Distance(a[..i], b[..j - 1]) + 1,
           Distance(a[..i - 1], b[..j - 1]) + (if a[i - 1] == b[j - 1] then 0 else 1))
  {
    assert a[..i][..i - 1] == a[..i - 1];
    assert b[..j][..j - 1] == b[..j - 1];
  }

  /** One row of the dynamic program: from the distances of `a[..i - 1]`
      to every prefix of `b`, those of `a[..i]`. */
  method NextRow(a: string, b: string, i: nat, prev: array<nat>) returns (cur: array<nat>)
    requires 0 < i <= |a| && prev.Length == |b| + 1
    requires forall k :: 0 <= k <= |b| ==> prev[k] == Distance(a[..i - 1], b[..k])
    ensures fresh(cur) && cur.Length == |b| + 1
    ensures forall k :: 0 <= k <= |b| ==> cur[k] == Distance(a[..i], b[..k])
  {
    cur := new nat[|b| + 1];
    cur[0] := i;
    for j := 1 to |b| + 1
      invariant forall k :: 0 <= k < j ==> cur[k] == Distance(a[..i], b[..k])
    {
      DistanceOfPrefixes(a, b, i, j);
      var cost := if a[i - 1] == b[j - 1] then 0 else 1;
      cur[j] := Min3(prev[j] + 1, cur[j - 1] + 1, prev[j - 1] + cost);
    }
  }

  /** The standard row-by-row dynamic program for the edit distance,
      proved equal to `Distance`. */
  method EditDistance(a: string, b: string) returns (d: nat)
    ensures d == Distance(a, b)
  {
    var prev := new nat[|b| + 1];
    for j := 0 to |b| + 1
      invariant forall k :: 0 <= k < j ==> prev[k] == Distance(a[..0], b[..k])
    {
      prev[j] := j;
    }
    for i := 1 to |a| + 1
      invariant prev.Length == |b| + 1
      invariant forall k :: 0 <= k <= |b| ==> prev[k] == Distance(a[..i - 1], b[..k])
    {
      prev := NextRow(a, b, i, prev);
    }
    assert a[..|a|] == a && b[..|b|] == b;
    d := prev[|b|];
  }

  /** A share `num / m` of a positive whole `m` lies in [0, 1] and is 1
      exactly when it is the whole. */
  lemma ShareBounds(num: int, m: int)
    requires 0 < m && 0 <= num <= m
    ensures 0.0 <= num as real / m as real <= 1.0
    ensures num as real / m as real == 1.0 <==> num == m
  {
    var q := num as real / m as real;
    assert q * m as real == num as real;
  }

  /** `calculate_levenshtein_ratio`: one minus the edit distance of the
      lower-cased words relative to the length of the longer original
      word, and 1 when both words are empty. */
  function Ratio(a: string, b: string): (r: real)
    ensures 0.0 <= r <= 1.0
  {
    var m := Max(|a|, |b|);
    if m == 0 then 1.0
    else
      var d := Distance(Lower(a), Lower(b));
      DistanceAtMostLonger(Lower(a), Lower(b));
      ShareBounds(m - d, m);
      (m - d) as real / m as real
  }

  /** The ratio is 1 exactly when the words agree up to case; in particular
      two empty words score 1. */
  lemma RatioOneIff(a: string, b: string)
    ensures Ratio(a, b) == 1.0 <==> Lower(a) == Lower(b)
  {
    var m := Max(|a|, |b|);
    var la, lb := Lower(a), Lower(b);
    if m > 0 {
      var d := Distance(la, lb);
      assert Ratio(a, b) == (m - d) as real / m as real;
      DistanceAtMostLonger(la, lb);
      ShareBounds(m - d, m);
      DistanceZeroIff(la, lb);
    } else {
      assert la == [] && lb == [];
    }
  }

  lemma RatioSelf(w: string)
    ensures Ratio(w, w) == 1.0
  {
    RatioOneIff(w, w);
  }

  lemma RatioSymmetric(a: string, b: string)
    ensures Ratio(a, b) == Ratio(b, a)
  {
    DistanceSymmetric(Lower(a), Lower(b));
  }

  lemma RatioIgnoresCase(a: string, b: string)
    ensures Ratio(a, b) == Ratio(Lower(a), Lower(b))
  {
    var la, lb := Lower(a), Lower(b);
    LowerIdempotent(a);
    LowerIdempotent(b);
    var m := Max(|a|, |b|);
    assert Max(|la|, |lb|) == m;
    if m > 0 {
      var d := Distance(la, lb);
      assert Ratio(a, b) == (m - d) as real / m as real;
      assert Ratio(la, lb) == (m - d) as real / m as real;
    }
  }
}
