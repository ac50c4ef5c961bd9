/** Small facts about sequences shared by the rest of the model. */
module Seqs {

  function Min(a: int, b: int): int
  {
    if a <= b then a else b
  }

  function Max(a: int, b: int): int
  {
    if a <= b then b else a
  }

  /** Number of set flags; the engine keeps such counts alongside its flag arrays. */
  function CountTrue(s: seq<bool>): (r: nat)
    ensures r <= |s|
  {
    if |s| == 0 then 0 else (if s[0] then 1 else 0) + CountTrue(s[1..])
  }

  function Sum(s: seq<int>): int
  {
    if |s| == 0 then 0 else s[0] + Sum(s[1..])
  }

  /** Python's slice `s[lo:hi]` for non-negative bounds: bounds past the end are clamped. */
  function Slice<T>(s: seq<T>, lo: nat, hi: nat): (r: seq<T>)
    ensures |r| == Max(0, Min(hi, |s|) - Min(lo, |s|))
    ensures forall i :: 0 <= i < |r| ==> r[i] == s[lo + i]
  {
    var a := Min(lo, |s|);
    var b := Min(hi, |s|);
    if a <= b then s[a..b] else []
  }

  /** Python's `s[0:n]`. */
  function Take<T>(s: seq<T>, n: nat): (r: seq<T>)
    ensures |r| == Min(n, |s|)
    ensures forall i :: 0 <= i < |r| ==> r[i] == s[i]
  {
    if n <= |s| then s[..n] else s
  }

  ghost predicate Distinct<T>(s: seq<T>)
  {
    forall i, j :: 0 <= i < j < |s| ==> s[i] != s[j]
  }

  function SetOf<T>(s: seq<T>): set<T>
  {
    set x | x in s
  }

  lemma {:induction false} DistinctCardinality<T>(s: seq<T>)
    requires Distinct(s)
    ensures |SetOf(s)| == |s|
  {
    if |s| > 0 {
      DistinctCardinality(s[1..]);
      assert SetOf(s) == {s[0]} + SetOf(s[1..]);
      assert s[0] !in SetOf(s[1..]);
    }
  }

  lemma {:induction false} CountTrueUpdate(s: seq<bool>, i: int, b: bool)
    requires 0 <= i < |s|
    ensures CountTrue(s[i := b]) == CountTrue(s) - (if s[i] then 1 else 0) + (if b then 1 else 0)
  {
    if i > 0 {
      assert s[i := b][1..] == s[1..][i - 1 := b];
      CountTrueUpdate(s[1..], i - 1, b);
    } else {
      assert s[i := b][1..] == s[1..];
    }
  }

  lemma {:induction false} CountTrueZero(s: seq<bool>)
    ensures CountTrue(s) == 0 <==> forall i :: 0 <= i < |s| ==> !s[i]
  {
    if |s| > 0 {
      CountTrueZero(s[1..]);
      assert forall i :: 1 <= i < |s| ==> s[i] == s[1..][i - 1];
    }
  }

  lemma {:induction false} SumUpdate(s: seq<int>, i: int, d: int)
    requires 0 <= i < |s|
    ensures Sum(s[i := s[i] + d]) == Sum(s) + d
  {
    if i > 0 {
      assert s[i := s[i] + d][1..] == s[1..][i - 1 := s[1..][i - 1] + d];
      SumUpdate(s[1..], i - 1, d);
    } else {
      assert s[i := s[i] + d][1..] == s[1..];
    }
  }

  lemma {:induction false} CountTrueAll(s: seq<bool>, b: bool)
    requires forall i :: 0 <= i < |s| ==> s[i] == b
    ensures CountTrue(s) == if b then |s| else 0
  {
    if |s| > 0 {
      CountTrueAll(s[1..], b);
    }
  }

  lemma {:induction false} SumZero(s: seq<int>)
    requires forall i :: 0 <= i < |s| ==> s[i] == 0
    ensures Sum(s) == 0
  {
    if |s| > 0 {
      SumZero(s[1..]);
    }
  }

  /** `x % n` for `0 <= x < 3n`, by subtraction. */
  lemma ModSmall(x: int, n: int)
    requires 0 <= x < 3 * n
    ensures x % n == if x < n then x else if x < 2 * n then x - n else x - 2 * n
  {
    if x < n {
      assert x == 0 * n + x;
    } else if x < 2 * n {
      assert x == 1 * n + (x - n);
    } else {
      assert x == 2 * n + (x - 2 * n);
    }
  }

  lemma ModOne(x: int)
    ensures x % 1 == 0
  {
  }

  /** Two unset flags leave at most `|s| - 2` set. */
  lemma CountTrueTwoFalse(s: seq<bool>, i: int, j: int)
    requires 0 <= i < |s| && 0 <= j < |s| && i != j && !s[i] && !s[j]
    ensures CountTrue(s) <= |s| - 2
  {
    CountTrueUpdate(s, i, true);
    CountTrueUpdate(s[i := true], j, true);
  }

  /** A sequence that is zero except at `w` sums to its entry at `w`. */
  lemma SumSingle(s: seq<int>, w: int)
    requires 0 <= w < |s| && forall i :: 0 <= i < |s| && i != w ==> s[i] == 0
    ensures Sum(s) == s[w]
  {
    var zeros := s[w := 0];
    SumZero(zeros);
    SumUpdate(zeros, w, s[w]);
    assert zeros[w := zeros[w] + s[w]] == s;
  }

  /** The entrywise difference of two sequences sums to the difference of their sums. */
  lemma {:induction false} SumDiff(a: seq<int>, b: seq<int>, d: seq<int>)
    requires |a| == |b| == |d| && forall i :: 0 <= i < |d| ==> d[i] == a[i] - b[i]
    ensures Sum(d) == Sum(a) - Sum(b)
  {
    if |d| > 0 {
      SumDiff(a[1..], b[1..], d[1..]);
    }
  }

  /** A permutation of a sequence of distinct elements has distinct elements. */
  lemma DistinctPermutation<T>(a: seq<T>, b: seq<T>)
    requires multiset(a) == multiset(b) && Distinct(b)
    ensures Distinct(a)
  {
    forall p, q | 0 <= p < q < |a|
      ensures a[p] != a[q]
    {
      if a[p] == a[q] {
        var x := a[p];
        assert a == a[..q] + [a[q]] + a[q + 1..];
        assert x in a[..q];
        assert multiset(a)[x] >= 2;
        DistinctOnce(b, x);
      }
    }
  }

  lemma {:induction false} DistinctOnce<T>(b: seq<T>, x: T)
    requires Distinct(b)
    ensures multiset(b)[x] <= 1
  {
    if |b| > 0 {
      var init := b[..|b| - 1];
      assert b == init + [b[|b| - 1]];
      assert Distinct(init);
      DistinctOnce(init, x);
      if x == b[|b| - 1] {
        assert x !in init;
      }
    }
  }

  lemma {:induction false} SumNonNegative(s: seq<int>)
    requires forall i :: 0 <= i < |s| ==> s[i] >= 0
    ensures Sum(s) >= 0
  {
    if |s| > 0 {
      SumNonNegative(s[1..]);
    }
  }

  /** The positions where neither flag is set. */
  function Neither(a: seq<bool>, b: seq<bool>): (r: seq<bool>)
    requires |a| == |b|
    ensures |r| == |a| && forall i :: 0 <= i < |a| ==> (r[i] <==> !a[i] && !b[i])
  {
    seq(|a|, i requires 0 <= i < |a| => !a[i] && !b[i])
  }

  /** At most `CountTrue(a) + CountTrue(b)` positions have a flag set. */
  lemma {:induction false} CountNeither(a: seq<bool>, b: seq<bool>)
    requires |a| == |b|
    ensures CountTrue(Neither(a, b)) + CountTrue(a) + CountTrue(b) >= |a|
  {
    if |a| > 0 {
      assert Neither(a, b)[1..] == Neither(a[1..], b[1..]);
      CountNeither(a[1..], b[1..]);
    }
  }
}
