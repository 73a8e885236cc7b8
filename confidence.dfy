/**
 * `compute_confidence` of backend/rag_pipeline.py: the mean of the present
 * similarity scores mapped onto three tiers. Scores are exact reals.
 */
module Confidence {

  datatype Tier = High | Medium | Low

  /** The string `compute_confidence` returns for each tier. */
  function Label(t: Tier): (s: string)
    ensures t == High ==> s == "High"
    ensures t == Medium ==> s == "Medium"
    ensures t == Low ==> s == "Low"
  {
    match t
    case High => "High"
    case Medium => "Medium"
    case Low => "Low"
  }

  /** The order Low < Medium < High. */
  function Rank(t: Tier): nat
  {
    match t
    case Low => 0
    case Medium => 1
    case High => 2
  }

  const HighThreshold: real := 0.8
  const MediumThreshold: real := 0.6

  /** Python's `sum(scores)`. */
  function Sum(s: seq<real>): real
    decreases |s|
  {
    if s == [] then 0.0 else Sum(s[..|s| - 1]) + s[|s| - 1]
  }

  /** `sum(scores) / len(scores)`. */
  function Mean(s: seq<real>): real
    requires s != []
  {
    Sum(s) / |s| as real
  }

  /** The tier of a mean score. */
  function TierOf(avg: real): (t: Tier)
    ensures t == High <==> avg >= HighThreshold
    ensures t == Medium <==> MediumThreshold <= avg < HighThreshold
    ensures t == Low <==> avg < MediumThreshold
  {
    if avg >= HighThreshold then High
    else if avg >= MediumThreshold then Medium
    else Low
  }

  /** `compute_confidence`: "Low" for no scores, otherwise the tier of their mean. */
  function ComputeConfidence(scores: seq<real>): (t: Tier)
    ensures scores == [] ==> t == Low
    ensures scores != [] ==> (t == High <==> Mean(scores) >= HighThreshold)
    ensures scores != [] ==> (t == Medium <==> MediumThreshold <= Mean(scores) < HighThreshold)
    ensures scores != [] ==> (t == Low <==> Mean(scores) < MediumThreshold)
  {
    if scores == [] then Low else TierOf(Mean(scores))
  }

  /** Dividing by a positive count keeps a lower bound given as count times the bound. */
  lemma QuotientAtLeast(x: real, n: real, lo: real)
    requires n > 0.0 && x >= n * lo
    ensures x / n >= lo
  {
    assert x / n - lo == (x - n * lo) / n;
  }

  /** Dividing by a positive count keeps a strict upper bound given as count times the bound. */
  lemma QuotientBelow(x: real, n: real, hi: real)
    requires n > 0.0 && x < n * hi
    ensures x / n < hi
  {
    assert hi - x / n == (n * hi - x) / n;
  }

  /** Dividing by a positive count keeps the order. */
  lemma QuotientMonotone(x: real, y: real, n: real)
    requires n > 0.0 && x <= y
    ensures x / n <= y / n
  {
    assert y / n - x / n == (y - x) / n;
  }

  /** A larger mean never gives a lower tier. */
  lemma TierMonotone(a: real, b: real)
    requires a <= b
    ensures Rank(TierOf(a)) <= Rank(TierOf(b))
  {
  }

  /** A pointwise larger sequence has a larger sum. */
  lemma {:induction false} SumMonotone(a: seq<real>, b: seq<real>)
    requires |a| == |b|
    requires forall k :: 0 <= k < |a| ==> a[k] <= b[k]
    ensures Sum(a) <= Sum(b)
    decreases |a|
  {
    if a != [] {
      SumMonotone(a[..|a| - 1], b[..|b| - 1]);
    }
  }

  /** Raising any scores, keeping their number, never lowers the confidence tier. */
  lemma ConfidenceMonotone(a: seq<real>, b: seq<real>)
    requires |a| == |b|
    requires forall k :: 0 <= k < |a| ==> a[k] <= b[k]
    ensures Rank(ComputeConfidence(a)) <= Rank(ComputeConfidence(b))
  {
    if a != [] {
      SumMonotone(a, b);
      QuotientMonotone(Sum(a), Sum(b), |a| as real);
      TierMonotone(Mean(a), Mean(b));
    }
  }

  /** An upper bound on every score bounds the sum from above. */
  lemma {:induction false} SumAtMost(s: seq<real>, hi: real)
    requires forall k :: 0 <= k < |s| ==> s[k] <= hi
    ensures Sum(s) <= |s| as real * hi
    decreases |s|
  {
    if s != [] {
      SumAtMost(s[..|s| - 1], hi);
    }
  }

  /** The mean lies between the smallest and the largest bound of the scores. */
  lemma MeanBounds(s: seq<real>, lo: real, hi: real)
    requires s != []
    requires forall k :: 0 <= k < |s| ==> lo <= s[k] <= hi
    ensures lo <= Mean(s) <= hi
  {
    SumAtLeast(s, lo);
    SumAtMost(s, hi);
  }

  /** Every score at least 0.8 gives "High"; every score below 0.6 gives "Low". */
  lemma UniformScores(s: seq<real>)
    requires s != []
    ensures (forall k :: 0 <= k < |s| ==> s[k] >= HighThreshold) ==> ComputeConfidence(s) == High
    ensures (forall k :: 0 <= k < |s| ==> s[k] < MediumThreshold) ==> ComputeConfidence(s) == Low
  {
    if forall k :: 0 <= k < |s| ==> s[k] >= HighThreshold {
      SumAtLeast(s, HighThreshold);
      QuotientAtLeast(Sum(s), |s| as real, HighThreshold);
    }
    if forall k :: 0 <= k < |s| ==> s[k] < MediumThreshold {
      LowerThanMediumMean(s);
      QuotientBelow(Sum(s), |s| as real, MediumThreshold);
    }
  }

  /** A lower bound on every score bounds the sum from below. */
  lemma {:induction false} SumAtLeast(s: seq<real>, lo: real)
    requires forall k :: 0 <= k < |s| ==> s[k] >= lo
    ensures Sum(s) >= |s| as real * lo
    decreases |s|
  {
    if s != [] {
      SumAtLeast(s[..|s| - 1], lo);
    }
  }

  /** The mean of scores that are all below 0.6 is below 0.6. */
  lemma {:induction false} LowerThanMediumMean(s: seq<real>)
    requires s != []
    requires forall k :: 0 <= k < |s| ==> s[k] < MediumThreshold
    ensures Sum(s) < |s| as real * MediumThreshold
    decreases |s|
  {
    if |s| > 1 {
      LowerThanMediumMean(s[..|s| - 1]);
    }
  }
}
