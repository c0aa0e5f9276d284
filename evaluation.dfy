/**
 * The counting side of `ml_models/evaluation.py`: the prediction log, correct/incorrect
 * counts and exact averages, top-k accuracy, and the calibration histogram with its bin
 * edges taken as the exact rationals i/n.
 */
module Evaluation {
  import opened Wrappers
  import opened Seqs

  /* ---------- masks, counts and sums ---------- */

  /** `np.array(predictions) == np.array(ground_truths)`. */
  function CorrectMask(predictions: seq<string>, groundTruths: seq<string>): (m: seq<bool>)
    requires |predictions| == |groundTruths|
    ensures |m| == |predictions| && forall i :: 0 <= i < |m| ==> (m[i] <==> predictions[i] == groundTruths[i])
  {
    seq(|predictions|, i requires 0 <= i < |predictions| => predictions[i] == groundTruths[i])
  }

  /** How many entries of `mask` equal `want`. */
  function CountWhere(mask: seq<bool>, want: bool): (n: nat)
    ensures n <= |mask|
  {
    if mask == [] then 0
    else CountWhere(mask[..|mask| - 1], want) + (if mask[|mask| - 1] == want then 1 else 0)
  }

  /** The sum of the values whose mask entry equals `want`. */
  function SumWhere(values: seq<real>, mask: seq<bool>, want: bool): real
    requires |values| == |mask|
  {
    if mask == [] then 0.0
    else
      SumWhere(values[..|values| - 1], mask[..|mask| - 1], want)
        + (if mask[|mask| - 1] == want then values[|values| - 1] else 0.0)
  }

  function Sum(values: seq<real>): real {
    if values == [] then 0.0 else Sum(values[..|values| - 1]) + values[|values| - 1]
  }

  ghost predicate AllUnit(values: seq<real>) {
    forall i :: 0 <= i < |values| ==> 0.0 <= values[i] <= 1.0
  }

  /** The count is the size of the set of positions holding `want`. */
  lemma {:induction false} CountWhereIsSet(mask: seq<bool>, want: bool)
    ensures CountWhere(mask, want) == |set i | 0 <= i < |mask| && mask[i] == want|
  {
    if mask != [] {
      var init := mask[..|mask| - 1];
      CountWhereIsSet(init, want);
      var before := set i | 0 <= i < |init| && init[i] == want;
      var after := set i | 0 <= i < |mask| && mask[i] == want;
      if mask[|mask| - 1] == want {
        assert after == before + {|mask| - 1};
      } else {
        assert after == before;
      }
    }
  }

  /** Every position is either correct or incorrect. */
  lemma {:induction false} CountWhereSplit(mask: seq<bool>)
    ensures CountWhere(mask, true) + CountWhere(mask, false) == |mask|
  {
    if mask != [] {
      CountWhereSplit(mask[..|mask| - 1]);
    }
  }

  /** The total is the correct part plus the incorrect part. */
  lemma {:induction false} SumSplit(values: seq<real>, mask: seq<bool>)
    requires |values| == |mask|
    ensures Sum(values) == SumWhere(values, mask, true) + SumWhere(values, mask, false)
  {
    if mask != [] {
      SumSplit(values[..|values| - 1], mask[..|mask| - 1]);
    }
  }

  /** Values in [0, 1] sum to at most the number of values summed. */
  lemma {:induction false} SumWhereBounds(values: seq<real>, mask: seq<bool>, want: bool)
    requires |values| == |mask| && AllUnit(values)
    ensures 0.0 <= SumWhere(values, mask, want) <= CountWhere(mask, want) as real
  {
    if mask != [] {
      SumWhereBounds(values[..|values| - 1], mask[..|mask| - 1], want);
    }
  }

  /** A quotient of a part by its size: the mean, or 0 for an empty part. */
  function MeanOr0(total: real, count: nat): real {
    if count == 0 then 0.0 else total / count as real
  }

  lemma MeanOr0Bounds(total: real, count: nat)
    requires 0.0 <= total <= count as real
    ensures 0.0 <= MeanOr0(total, count) <= 1.0
  {
    if count > 0 {
      DivUnit(total, count as real);
    }
  }

  /* ---------- the metrics record ---------- */

  const NoPredictionsError := "No predictions to evaluate"

  /** The counting part of `compute_metrics`; precision, recall and F1 are not modelled. */
  datatype Metrics =
    | NoPredictions(error: string)
    | Metrics(
        accuracy: real,
        numSamples: nat,
        numCorrect: nat,
        numIncorrect: nat,
        avgConfidence: real,
        avgConfidenceCorrect: real,
        avgConfidenceIncorrect: real)

  /** `compute_metrics` over the three parallel lists of a log. */
  function MetricsOf(predictions: seq<string>, groundTruths: seq<string>, confidences: seq<real>): (r: Metrics)
    requires |predictions| == |groundTruths| == |confidences|
    ensures r.NoPredictions? <==> |predictions| == 0
    ensures r.NoPredictions? ==> r.error == NoPredictionsError
    ensures r.Metrics? ==>
      && r.numSamples == |predictions|
      && r.numCorrect == |set i | 0 <= i < |predictions| && predictions[i] == groundTruths[i]|
      && r.numIncorrect == |set i | 0 <= i < |predictions| && predictions[i] != groundTruths[i]|
      && r.numCorrect + r.numIncorrect == r.numSamples
      && r.accuracy == r.numCorrect as real / r.numSamples as real
      && (r.numCorrect == 0 ==> r.avgConfidenceCorrect == 0.0)
      && (r.numIncorrect == 0 ==> r.avgConfidenceIncorrect == 0.0)
  {
    if |predictions| == 0 then NoPredictions(NoPredictionsError)
    else
      var mask := CorrectMask(predictions, groundTruths);
      var correct := CountWhere(mask, true);
      var incorrect := CountWhere(mask, false);
      CountWhereIsSet(mask, true);
      CountWhereIsSet(mask, false);
      assert (set i | 0 <= i < |mask| && mask[i] == true) == (set i | 0 <= i < |predictions| && predictions[i] == groundTruths[i]);
      assert (set i | 0 <= i < |mask| && mask[i] == false) == (set i | 0 <= i < |predictions| && predictions[i] != groundTruths[i]);
      CountWhereSplit(mask);
      var n := |predictions|;
      Metrics(
        correct as real / n as real,
        n,
        correct,
        incorrect,
        Sum(confidences) / n as real,
        MeanOr0(SumWhere(confidences, mask, true), correct),
        MeanOr0(SumWhere(confidences, mask, false), incorrect))
  }

  /** With confidences in [0, 1], accuracy and the three confidence averages all lie in [0, 1]. */
  lemma MetricsInUnitRange(predictions: seq<string>, groundTruths: seq<string>, confidences: seq<real>)
    requires |predictions| == |groundTruths| == |confidences| > 0 && AllUnit(confidences)
    ensures var r := MetricsOf(predictions, groundTruths, confidences);
      && 0.0 <= r.accuracy <= 1.0
      && 0.0 <= r.avgConfidence <= 1.0
      && 0.0 <= r.avgConfidenceCorrect <= 1.0
      && 0.0 <= r.avgConfidenceIncorrect <= 1.0
  {
    var mask := CorrectMask(predictions, groundTruths);
    var n := |predictions|;
    SumWhereBounds(confidences, mask, true);
    SumWhereBounds(confidences, mask, false);
    SumSplit(confidences, mask);
    CountWhereSplit(mask);
    MeanOr0Bounds(SumWhere(confidences, mask, true), CountWhere(mask, true));
    MeanOr0Bounds(SumWhere(confidences, mask, false), CountWhere(mask, false));
    MeanOr0Bounds(Sum(confidences), n);
    MeanOr0Bounds(CountWhere(mask, true) as real, n);
  }

  /* ---------- top-k accuracy ---------- */

  function Min(a: nat, b: nat): nat {
    if a <= b then a else b
  }

  /** The ground truth is among `preds[:k]`. */
  predicate IsHit(groundTruth: string, preds: seq<string>, k: int) {
    groundTruth in Take(preds, k)
  }

  /** `gt in preds[:k]` for each pair `zip` forms, the shorter list deciding the length. */
  function HitMask(groundTruths: seq<string>, topKPredictions: seq<seq<string>>, k: int): (m: seq<bool>)
    ensures |m| == Min(|groundTruths|, |topKPredictions|)
    ensures forall i :: 0 <= i < |m| ==> (m[i] <==> IsHit(groundTruths[i], topKPredictions[i], k))
  {
    var n := Min(|groundTruths|, |topKPredictions|);
    seq(n, i requires 0 <= i < n => IsHit(groundTruths[i], topKPredictions[i], k))
  }

  /** The `correct` sum of `top_k_accuracy`. */
  function TopKHits(groundTruths: seq<string>, topKPredictions: seq<seq<string>>, k: int): (r: nat)
    ensures r <= |groundTruths| && r <= |topKPredictions|
  {
    CountWhere(HitMask(groundTruths, topKPredictions, k), true)
  }

  /** The hit count is the number of zipped positions whose ground truth is among the first `k` predictions. */
  lemma TopKHitsIsSet(groundTruths: seq<string>, topKPredictions: seq<seq<string>>, k: int)
    ensures TopKHits(groundTruths, topKPredictions, k)
      == |set i | 0 <= i < Min(|groundTruths|, |topKPredictions|) && IsHit(groundTruths[i], topKPredictions[i], k)|
  {
    var m := HitMask(groundTruths, topKPredictions, k);
    CountWhereIsSet(m, true);
    assert (set i | 0 <= i < |m| && m[i] == true)
      == (set i | 0 <= i < Min(|groundTruths|, |topKPredictions|) && IsHit(groundTruths[i], topKPredictions[i], k));
  }

  /** A mask that is true wherever another one is counts at least as many trues. */
  lemma {:induction false} CountWhereMonotone(m1: seq<bool>, m2: seq<bool>)
    requires |m1| == |m2| && forall i :: 0 <= i < |m1| && m1[i] ==> m2[i]
    ensures CountWhere(m1, true) <= CountWhere(m2, true)
  {
    if m1 != [] {
      CountWhereMonotone(m1[..|m1| - 1], m2[..|m2| - 1]);
    }
  }

  /** A quotient of a count by a larger count lies in [0, 1]. */
  lemma DivUnit(a: real, b: real)
    requires 0.0 <= a <= b && b > 0.0
    ensures 0.0 <= a / b <= 1.0
  {
    var q := a / b;
    assert q * b == a;
  }

  /** Dividing by the same positive number keeps the order. */
  lemma DivMonotone(a: real, c: real, b: real)
    requires a <= c && b > 0.0
    ensures a / b <= c / b
  {
    assert c / b - a / b == (c - a) / b;
  }

  /** Taking more of a ranking (from a non-negative `k`) never loses an element. */
  lemma TakeGrows<T>(s: seq<T>, k1: int, k2: int)
    requires 0 <= k1 <= k2
    ensures forall x :: x in Take(s, k1) ==> x in Take(s, k2)
  {
    var a, b := Take(s, k1), Take(s, k2);
    assert a == b[..|a|];
  }

  /** More predictions considered never lower the hit count. */
  lemma TopKHitsMonotone(groundTruths: seq<string>, topKPredictions: seq<seq<string>>, k1: int, k2: int)
    requires 0 <= k1 <= k2
    ensures TopKHits(groundTruths, topKPredictions, k1) <= TopKHits(groundTruths, topKPredictions, k2)
  {
    var m1, m2 := HitMask(groundTruths, topKPredictions, k1), HitMask(groundTruths, topKPredictions, k2);
    forall i | 0 <= i < |m1| && m1[i] ensures m2[i] {
      TakeGrows(topKPredictions[i], k1, k2);
    }
    CountWhereMonotone(m1, m2);
  }

  /** Python's error for a division by zero. */
  const ZeroDivisionText := "division by zero"

  /** `top_k_accuracy` against a list of ground truths: hits over the number of ground truths. */
  function TopKAccuracyOf(groundTruths: seq<string>, k: int, topKPredictions: seq<seq<string>>): (r: Result<real>)
    ensures r.Err? <==> |groundTruths| == 0
    ensures r.Err? ==> r.error == ZeroDivisionText
    ensures r.Ok? ==> r.value == TopKHits(groundTruths, topKPredictions, k) as real / |groundTruths| as real
    ensures r.Ok? ==> 0.0 <= r.value <= 1.0
  {
    if |groundTruths| == 0 then Err(ZeroDivisionText)
    else
      var hits := TopKHits(groundTruths, topKPredictions, k);
      DivUnit(hits as real, |groundTruths| as real);
      Ok(hits as real / |groundTruths| as real)
  }

  /** Top-k accuracy is non-decreasing in `k` over non-negative `k`. */
  lemma TopKAccuracyMonotone(groundTruths: seq<string>, topKPredictions: seq<seq<string>>, k1: int, k2: int)
    requires 0 <= k1 <= k2 && |groundTruths| > 0
    ensures TopKAccuracyOf(groundTruths, k1, topKPredictions).value <= TopKAccuracyOf(groundTruths, k2, topKPredictions).value
  {
    TopKHitsMonotone(groundTruths, topKPredictions, k1, k2);
    DivMonotone(TopKHits(groundTruths, topKPredictions, k1) as real, TopKHits(groundTruths, topKPredictions, k2) as real, |groundTruths| as real);
  }

  /**
   * Python's slice makes a negative `k` count from the end, so monotonicity stops at 0:
   * `preds[:-1]` keeps the first prediction, `preds[:0]` keeps nothing.
   */
  lemma TopKAccuracyNegativeK()
    ensures TopKAccuracyOf(["heart"], -1, [["heart", "dna"]]) == Ok(1.0)
    ensures TopKAccuracyOf(["heart"], 0, [["heart", "dna"]]) == Ok(0.0)
  {
    assert Take(["heart", "dna"], -1) == ["heart"];
    assert Take(["heart", "dna"], 0) == [];
  }

  /* ---------- the evaluator object ---------- */

  class ModelEvaluator {
    var predictions: seq<string>
    var groundTruths: seq<string>
    var confidences: seq<real>

    /** The three lists run in parallel. */
    ghost predicate Valid()
      reads this
    {
      |predictions| == |groundTruths| == |confidences|
    }

    constructor ()
      ensures Valid() && predictions == [] && groundTruths == [] && confidences == []
    {
      predictions, groundTruths, confidences := [], [], [];
    }

    /** `add_prediction`: one element at the end of each list. */
    method AddPrediction(predicted: string, groundTruth: string, confidence: real)
      requires Valid()
      modifies this
      ensures Valid()
      ensures predictions == old(predictions) + [predicted]
      ensures groundTruths == old(groundTruths) + [groundTruth]
      ensures confidences == old(confidences) + [confidence]
    {
      predictions := predictions + [predicted];
      groundTruths := groundTruths + [groundTruth];
      confidences := confidences + [confidence];
    }

    /** `compute_metrics` on the current log. */
    function ComputeMetrics(): (r: Metrics)
      reads this
      requires Valid()
      ensures r.NoPredictions? <==> |predictions| == 0
      ensures r.Metrics? ==> r.numSamples == |predictions| && r.numCorrect + r.numIncorrect == r.numSamples
    {
      MetricsOf(predictions, groundTruths, confidences)
    }

    /** `top_k_accuracy(k, top_k_predictions)` against the logged ground truths. */
    function TopKAccuracy(k: int, topKPredictions: seq<seq<string>>): (r: Result<real>)
      reads this
      ensures r.Err? <==> |groundTruths| == 0
      ensures r.Ok? ==> 0.0 <= r.value <= 1.0
    {
      TopKAccuracyOf(groundTruths, k, topKPredictions)
    }
  }

  /* ---------- calibration ---------- */

  /** Bin edge `i` of `np.linspace(0, 1, n + 1)`, taken as the exact rational i/n. */
  function Edge(i: nat, n: nat): real
    requires n > 0
  {
    i as real / n as real
  }

  lemma EdgeFacts(n: nat)
    requires n > 0
    ensures Edge(0, n) == 0.0 && Edge(n, n) == 1.0
    ensures forall i, j :: 0 <= i <= j ==> Edge(i, n) <= Edge(j, n)
  {
    assert n as real / n as real == 1.0;
    forall i: nat, j: nat | i <= j ensures Edge(i, n) <= Edge(j, n) {
      DivMonotone(i as real, j as real, n as real);
    }
  }

  /** `bins[i] <= c < bins[i + 1]`. */
  predicate InBin(c: real, i: nat, n: nat)
    requires n > 0
  {
    Edge(i, n) <= c < Edge(i + 1, n)
  }

  /** The number of confidences in bin `i` (`mask.sum()`). */
  function BinCount(confidences: seq<real>, i: nat, n: nat): (r: nat)
    requires n > 0
    ensures r <= |confidences|
  {
    if confidences == [] then 0
    else
      BinCount(confidences[..|confidences| - 1], i, n)
        + (if InBin(confidences[|confidences| - 1], i, n) then 1 else 0)
  }

  /** The number of correct samples in bin `i` (`correct[mask].sum()`). */
  function BinHits(confidences: seq<real>, correct: seq<bool>, i: nat, n: nat): (r: nat)
    requires n > 0 && |correct| == |confidences|
    ensures r <= BinCount(confidences, i, n)
  {
    if confidences == [] then 0
    else
      BinHits(confidences[..|confidences| - 1], correct[..|correct| - 1], i, n)
        + (if InBin(confidences[|confidences| - 1], i, n) && correct[|correct| - 1] then 1 else 0)
  }

  /** `correct[mask].mean()` for a non-empty bin, and 0 for an empty one. */
  function BinAccuracy(confidences: seq<real>, correct: seq<bool>, i: nat, n: nat): (r: real)
    requires n > 0 && |correct| == |confidences|
    ensures 0.0 <= r <= 1.0
    ensures BinCount(confidences, i, n) == 0 ==> r == 0.0
  {
    var count := BinCount(confidences, i, n);
    if count == 0 then 0.0
    else
      var hits := BinHits(confidences, correct, i, n);
      DivUnit(hits as real, count as real);
      hits as real / count as real
  }

  /** The midpoint of bin `i`. */
  function Center(i: nat, n: nat): real
    requires n > 0
  {
    (Edge(i, n) + Edge(i + 1, n)) / 2.0
  }

  datatype Calibration = Calibration(centers: seq<real>, accuracies: seq<real>, counts: seq<nat>)

  const NegativeSamplesError := "Number of samples must be non-negative"
  const MaskMismatchError := "boolean index did not match indexed array along dimension 0"

  /** Some bin in 0..n holds at least one confidence. */
  ghost predicate SomeBinUsed(confidences: seq<real>, n: nat) {
    n > 0 && exists i :: 0 <= i < n && BinCount(confidences, i, n) > 0
  }

  /**
   * `calibration_curve`: one (center, accuracy, count) triple per bin. `np.linspace` refuses a
   * negative sample count, so `n_bins < -1` fails; `n_bins` of 0 or -1 gives empty results.
   * The correctness list is indexed by the mask only for a non-empty bin, so lists of
   * different lengths fail exactly when some bin is used.
   */
  method CalibrationCurve(confidences: seq<real>, correct: seq<bool>, nBins: int) returns (r: Result<Calibration>)
    ensures r.Err? <==> nBins < -1 || (|correct| != |confidences| && SomeBinUsed(confidences, if nBins < 0 then 0 else nBins))
    ensures r.Ok? && nBins <= 0 ==> r.value == Calibration([], [], [])
    ensures r.Ok? && nBins > 0 ==>
      && |r.value.centers| == |r.value.accuracies| == |r.value.counts| == nBins
      && forall i :: 0 <= i < nBins ==>
           && r.value.centers[i] == Center(i, nBins)
           && r.value.counts[i] == BinCount(confidences, i, nBins)
           && (r.value.counts[i] == 0 ==> r.value.accuracies[i] == 0.0)
           && (|correct| == |confidences| ==> r.value.accuracies[i] == BinAccuracy(confidences, correct, i, nBins))
  {
    if nBins < -1 {
      return Err(NegativeSamplesError);
    }
    if nBins <= 0 {
      return Ok(Calibration([], [], []));
    }
    var centers: seq<real> := [];
    var accuracies: seq<real> := [];
    var counts: seq<nat> := [];
    for i := 0 to nBins
      invariant |centers| == |accuracies| == |counts| == i
      invariant forall j :: 0 <= j < i ==> BinCount(confidences, j, nBins) > 0 ==> |correct| == |confidences|
      invariant forall j :: 0 <= j < i ==>
        && centers[j] == Center(j, nBins)
        && counts[j] == BinCount(confidences, j, nBins)
        && (counts[j] == 0 ==> accuracies[j] == 0.0)
        && (|correct| == |confidences| ==> accuracies[j] == BinAccuracy(confidences, correct, j, nBins))
    {
      var count := BinCount(confidences, i, nBins);
      if count > 0 && |correct| != |confidences| {
        return Err(MaskMismatchError);
      }
      var accuracy := if count > 0 then BinAccuracy(confidences, correct, i, nBins) else 0.0;
      assert count == 0 && |correct| == |confidences| ==> accuracy == BinAccuracy(confidences, correct, i, nBins);
      centers := centers + [Center(i, nBins)];
      accuracies := accuracies + [accuracy];
      counts := counts + [count];
    }
    return Ok(Calibration(centers, accuracies, counts));
  }

  /** Bins are half-open, so a confidence of exactly 1.0 lands in none of them. */
  lemma OneIsInNoBin(n: nat)
    requires n > 0
    ensures forall i :: 0 <= i < n ==> !InBin(1.0, i, n)
  {
    EdgeFacts(n);
  }

  /** How many bins among the first `m` contain `c`. */
  function BinsHolding(c: real, n: nat, m: nat): nat
    requires n > 0
  {
    if m == 0 then 0 else BinsHolding(c, n, m - 1) + (if InBin(c, m - 1, n) then 1 else 0)
  }

  /** The first `m` bins together cover [0, m/n) once. */
  lemma {:induction false} BinsHoldingOnce(c: real, n: nat, m: nat)
    requires 0 < n && m <= n
    ensures BinsHolding(c, n, m) == if 0.0 <= c < Edge(m, n) then 1 else 0
  {
    EdgeFacts(n);
    if m > 0 {
      BinsHoldingOnce(c, n, m - 1);
    }
  }

  /** The total of the first `m` bin counts. */
  function TotalCount(confidences: seq<real>, n: nat, m: nat): nat
    requires n > 0
  {
    if m == 0 then 0 else TotalCount(confidences, n, m - 1) + BinCount(confidences, m - 1, n)
  }

  /** How many confidences lie in [0, 1). */
  function InUnitCount(confidences: seq<real>): (r: nat)
    ensures r <= |confidences|
  {
    if confidences == [] then 0
    else
      InUnitCount(confidences[..|confidences| - 1])
        + (if 0.0 <= confidences[|confidences| - 1] < 1.0 then 1 else 0)
  }

  /** Adding one confidence adds, to the total of the first `m` bins, the number of those bins that hold it. */
  lemma {:induction false} TotalCountLast(confidences: seq<real>, n: nat, m: nat)
    requires n > 0 && confidences != []
    ensures TotalCount(confidences, n, m)
      == TotalCount(confidences[..|confidences| - 1], n, m) + BinsHolding(confidences[|confidences| - 1], n, m)
  {
    if m > 0 {
      TotalCountLast(confidences, n, m - 1);
    }
  }

  /** The bin counts add up to the number of confidences in [0, 1), hence to at most the number of samples. */
  lemma {:induction false} BinCountsTotal(confidences: seq<real>, n: nat)
    requires n > 0
    ensures TotalCount(confidences, n, n) == InUnitCount(confidences)
    ensures TotalCount(confidences, n, n) <= |confidences|
  {
    if confidences != [] {
      BinCountsTotal(confidences[..|confidences| - 1], n);
      TotalCountLast(confidences, n, n);
      BinsHoldingOnce(confidences[|confidences| - 1], n, n);
      EdgeFacts(n);
    } else {
      TotalEmpty(n, n);
    }
  }

  lemma {:induction false} TotalEmpty(n: nat, m: nat)
    requires n > 0
    ensures TotalCount([], n, m) == 0
  {
    if m > 0 {
      TotalEmpty(n, m - 1);
    }
  }
}
