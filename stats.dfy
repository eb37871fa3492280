/** The arithmetic behind a category's running average: the sum that the
    harness computes with `reduce((acum, val) => acum + val, 0)` and the mean
    it stores as `avg` (test/gas/index.js:173-174). */
module GasStats {

  /** Left-to-right sum, in the order `reduce` folds the samples. */
  function Sum(s: seq<nat>): nat
  {
    if s == [] then 0 else Sum(s[..|s| - 1]) + s[|s| - 1]
  }

  /** Sum divided by count; an empty category keeps the initial average 0. */
  function Mean(s: seq<nat>): real
  {
    if s == [] then 0.0 else Sum(s) as real / |s| as real
  }

  lemma {:induction false} SumAppend(a: seq<nat>, b: seq<nat>)
    ensures Sum(a + b) == Sum(a) + Sum(b)
  {
    if b == [] {
      assert a + b == a;
    } else {
      var b' := b[..|b| - 1];
      assert (a + b)[..|a + b| - 1] == a + b';
      SumAppend(a, b');
    }
  }

  lemma {:induction false} SumBounds(s: seq<nat>, lo: nat, hi: nat)
    requires forall i :: 0 <= i < |s| ==> lo <= s[i] <= hi
    ensures |s| * lo <= Sum(s) <= |s| * hi
  {
    if s != [] {
      SumBounds(s[..|s| - 1], lo, hi);
      assert |s| * lo == (|s| - 1) * lo + lo;
      assert |s| * hi == (|s| - 1) * hi + hi;
    }
  }

  lemma {:induction false} ElementAtMostSum(s: seq<nat>, i: nat)
    requires i < |s|
    ensures s[i] <= Sum(s)
  {
    if i < |s| - 1 {
      ElementAtMostSum(s[..|s| - 1], i);
    }
  }

  /** The average lies between the smallest and the largest possible sample. */
  lemma MeanBounds(s: seq<nat>, lo: nat, hi: nat)
    requires s != []
    requires forall i :: 0 <= i < |s| ==> lo <= s[i] <= hi
    ensures lo as real <= Mean(s) <= hi as real
  {
    SumBounds(s, lo, hi);
    RatioBounds(lo, hi, Sum(s), |s|);
  }

  lemma RatioBounds(lo: nat, hi: nat, total: nat, n: nat)
    requires n > 0 && n * lo <= total <= n * hi
    ensures lo as real <= total as real / n as real <= hi as real
  {
    CastProduct(lo, n);
    CastProduct(hi, n);
    LowerDiv(lo as real, total as real, n as real);
    UpperDiv(hi as real, total as real, n as real);
  }

  lemma CastProduct(a: nat, b: nat)
    ensures (b * a) as real == a as real * b as real
  {
  }

  lemma LowerDiv(x: real, t: real, n: real)
    requires n > 0.0 && x * n <= t
    ensures x <= t / n
  {
    assert t / n * n == t;
  }

  lemma UpperDiv(x: real, t: real, n: real)
    requires n > 0.0 && t <= x * n
    ensures t / n <= x
  {
    assert t / n * n == t;
  }

  /** One large sample lifts the average by at least its share: a failed
      attempt recorded with a sentinel cannot disappear in the mean. */
  lemma SampleLiftsMean(s: seq<nat>, i: nat)
    requires i < |s|
    ensures Mean(s) >= s[i] as real / |s| as real
  {
    ElementAtMostSum(s, i);
    var n := |s| as real;
    assert s[i] as real / n * n == s[i] as real;
    LowerDiv(s[i] as real / n, Sum(s) as real, n);
  }

  /** Recomputing the mean after an append equals updating the old mean
      incrementally: the stored average is a running mean. */
  lemma MeanAfterAppend(s: seq<nat>, x: nat)
    ensures Mean(s + [x]) == (Mean(s) * |s| as real + x as real) / (|s| + 1) as real
  {
    var t := s + [x];
    assert t[..|t| - 1] == s;
    assert Sum(t) == Sum(s) + x;
    if s != [] {
      var n := |s| as real;
      assert Mean(s) * n == Sum(s) as real;
    }
  }
}
