/**
 * The subject classifier of `ml_models/classify.py` with the CLIP embedding left outside:
 * the per-label softmax scores of an image are an input. The model keeps the taxonomy
 * (the label list and the label-to-subject table) as the state of a classifier object,
 * ranks the scores, cuts the ranking at `top_k` with Python's slice rules, and builds the
 * result record, the batch loop and the in-place taxonomy extension.
 */
module Classify {
  import opened Wrappers
  import opened Seqs
  import opened Text

  /** The built-in taxonomy: the prompts scored against an image, in declaration order. */
  const SubjectLabels: seq<string> := [
    "anatomical heart", "human cell", "double helix DNA", "water molecule H2O",
    "atom model", "lever physics", "AC circuit", "mitochondria organelle",
    "plant cell structure", "neuron cell", "blood circulation system",
    "skeletal system bones", "digestive system", "solar system planets",
    "photosynthesis process", "periodic table elements", "chemical reaction diagram",
    "electromagnetic wave", "simple machine pulley", "electric motor diagram"
  ]

  /** The short subject id reported for each prompt. */
  const LabelToSubject: map<string, string> := map[
    "anatomical heart" := "heart", "human cell" := "cell", "double helix DNA" := "dna",
    "water molecule H2O" := "water_molecule", "atom model" := "atom",
    "lever physics" := "lever", "AC circuit" := "circuit",
    "mitochondria organelle" := "mitochondria", "plant cell structure" := "plant_cell",
    "neuron cell" := "neuron", "blood circulation system" := "circulation",
    "skeletal system bones" := "skeleton", "digestive system" := "digestion",
    "solar system planets" := "solar_system", "photosynthesis process" := "photosynthesis",
    "periodic table elements" := "periodic_table", "chemical reaction diagram" := "reaction",
    "electromagnetic wave" := "em_wave", "simple machine pulley" := "pulley",
    "electric motor diagram" := "motor"
  ]

  /** The message numpy raises when the empty top-k index array is indexed at 0. */
  const EmptyTopKError: string := "index 0 is out of bounds for axis 0 with size 0"

  datatype Prediction = Prediction(subject: string, labelText: string, confidence: real)

  datatype Classification = Classification(
    predictedSubject: string,
    confidence: real,
    topPredictions: seq<Prediction>,
    allScores: map<string, real>)

  /** One element of `classify_batch`'s result: the classification plus `status: "success"`, or the error record. */
  datatype BatchEntry =
    | Classified(imagePath: string, result: Classification)
    | Failed(imagePath: string, error: string)

  /** The batch entry for one path, given the outcome of classifying it. */
  function Entry(path: string, outcome: Result<Classification>): (e: BatchEntry)
    ensures e.imagePath == path
    ensures e.Failed? <==> outcome.Err?
    ensures e.Failed? ==> e.error == outcome.error
    ensures e.Classified? ==> e.result == outcome.value
  {
    match outcome
    case Ok(c) => Classified(path, c)
    case Err(msg) => Failed(path, msg)
  }

  /** Every label of the taxonomy has a subject, so the lookups `LABEL_TO_SUBJECT[label]` succeed. */
  ghost predicate Mapped(labels: seq<string>, labelToSubject: map<string, string>) {
    forall l :: l in labels ==> l in labelToSubject
  }

  ghost predicate DistinctLabels(labels: seq<string>) {
    forall i, j :: 0 <= i < j < |labels| ==> labels[i] != labels[j]
  }

  /* ---------- ranking: np.argsort(scores)[::-1] ---------- */

  ghost predicate InRange(order: seq<nat>, n: nat) {
    forall j :: 0 <= j < |order| ==> order[j] < n
  }

  ghost predicate Distinct(order: seq<nat>) {
    forall j, k :: 0 <= j < k < |order| ==> order[j] != order[k]
  }

  ghost predicate NonIncreasing(scores: seq<real>, order: seq<nat>)
    requires InRange(order, |scores|)
  {
    forall j, k :: 0 <= j < k < |order| ==> scores[order[j]] >= scores[order[k]]
  }

  /** Inserts index `i` into a ranking, after every index whose score is at least `scores[i]`. */
  function InsertByScore(scores: seq<real>, i: nat, order: seq<nat>): (r: seq<nat>)
    requires i < |scores| && InRange(order, |scores|)
    ensures |r| == |order| + 1 && InRange(r, |scores|)
    ensures forall x :: x in r <==> x == i || x in order
    ensures NonIncreasing(scores, order) ==> NonIncreasing(scores, r)
    ensures Distinct(order) && i !in order ==> Distinct(r)
  {
    if order == [] then [i]
    else if scores[order[0]] < scores[i] then
      assert NonIncreasing(scores, order) ==> forall x :: x in order ==> scores[x] <= scores[order[0]];
      ConsKeepsOrder(scores, i, order);
      ConsDistinct(i, order);
      [i] + order
    else
      var tail := order[1..];
      assert order == [order[0]] + tail;
      var rest := InsertByScore(scores, i, tail);
      assert NonIncreasing(scores, order) ==> NonIncreasing(scores, tail) && forall x :: x in rest ==> scores[x] <= scores[order[0]];
      ConsKeepsOrder(scores, order[0], rest);
      assert Distinct(order) ==> Distinct(tail) && order[0] !in tail;
      ConsDistinct(order[0], rest);
      [order[0]] + rest
  }

  lemma ConsDistinct(h: nat, rest: seq<nat>)
    ensures Distinct(rest) && h !in rest ==> Distinct([h] + rest)
  {
    var r := [h] + rest;
    if Distinct(rest) && h !in rest {
      forall j, k | 0 <= j < k < |r| ensures r[j] != r[k] {
        assert r[k] == rest[k - 1];
        if j > 0 {
          assert r[j] == rest[j - 1];
        }
      }
    }
  }

  /** A ranking stays non-increasing when an index scoring at least as much as all of it goes in front. */
  lemma ConsKeepsOrder(scores: seq<real>, h: nat, rest: seq<nat>)
    requires h < |scores| && InRange(rest, |scores|)
    ensures InRange([h] + rest, |scores|)
    ensures NonIncreasing(scores, rest) && (forall x :: x in rest ==> scores[x] <= scores[h]) ==>
      NonIncreasing(scores, [h] + rest)
  {
    var r := [h] + rest;
    if NonIncreasing(scores, rest) && (forall x :: x in rest ==> scores[x] <= scores[h]) {
      forall j, k | 0 <= j < k < |r| ensures scores[r[j]] >= scores[r[k]] {
        assert r[k] == rest[k - 1];
        if j > 0 {
          assert r[j] == rest[j - 1];
        }
      }
    }
  }

  /** The ranking of the indices `0 .. n-1`. */
  function RankPrefix(scores: seq<real>, n: nat): (r: seq<nat>)
    requires n <= |scores|
    ensures |r| == n && InRange(r, |scores|) && Distinct(r) && NonIncreasing(scores, r)
    ensures forall x: int :: x in r <==> 0 <= x < n
  {
    if n == 0 then []
    else
      var prev := RankPrefix(scores, n - 1);
      var r := InsertByScore(scores, n - 1, prev);
      assert forall x :: x in r <==> x == n - 1 || x in prev;
      r
  }

  /** The first index of the ranking has the highest score. */
  lemma RankFirstIsMax(scores: seq<real>)
    requires |scores| > 0
    ensures forall i :: 0 <= i < |scores| ==> scores[i] <= scores[RankDescending(scores)[0]]
  {
    var rank := RankDescending(scores);
    forall i | 0 <= i < |scores| ensures scores[i] <= scores[rank[0]] {
      assert i in rank;
      var k :| 0 <= k < |rank| && rank[k] == i;
      if k > 0 {
        assert scores[rank[0]] >= scores[rank[k]];
      }
    }
  }

  /**
   * `np.argsort(scores)[::-1]`: every index exactly once, highest score first. numpy leaves
   * the order of equal scores unspecified; this ranking puts the lower index first.
   */
  function RankDescending(scores: seq<real>): (r: seq<nat>)
    ensures |r| == |scores| && InRange(r, |scores|) && Distinct(r) && NonIncreasing(scores, r)
    ensures forall x: int :: x in r <==> 0 <= x < |scores|
  {
    RankPrefix(scores, |scores|)
  }

  /* ---------- the result record ---------- */

  function PredictionAt(labels: seq<string>, labelToSubject: map<string, string>, scores: seq<real>, idx: nat): Prediction
    requires Mapped(labels, labelToSubject) && |scores| == |labels| && idx < |labels|
  {
    Prediction(labelToSubject[labels[idx]], labels[idx], scores[idx])
  }

  /** `{LABEL_TO_SUBJECT[label]: scores[i] for i, label in enumerate(labels[:n])}`: a later label with the same subject overwrites. */
  function AllScores(labels: seq<string>, labelToSubject: map<string, string>, scores: seq<real>, n: nat): (r: map<string, real>)
    requires Mapped(labels, labelToSubject) && |scores| == |labels| && n <= |labels|
    ensures r.Keys == set i | 0 <= i < n :: labelToSubject[labels[i]]
    ensures forall i :: 0 <= i < n && (forall j :: i < j < n ==> labelToSubject[labels[j]] != labelToSubject[labels[i]])
              ==> r[labelToSubject[labels[i]]] == scores[i]
  {
    if n == 0 then map[]
    else AllScores(labels, labelToSubject, scores, n - 1)[labelToSubject[labels[n - 1]] := scores[n - 1]]
  }

  /** The number of entries `ranking[:topK]` keeps of `n`, by Python's slice rules. */
  function TopCount(n: nat, topK: int): nat {
    if 0 <= topK then (if topK <= n then topK else n)
    else (if -topK <= n then n + topK else 0)
  }

  /**
   * `classify_image` after the scores are known: rank, keep `ranking[:topK]`, and promote the
   * first kept entry. An empty cut (top_k of 0, no labels, or a negative top_k that removes
   * everything) fails with numpy's IndexError, as `top_indices[0]` does.
   */
  function ClassifyScores(labels: seq<string>, labelToSubject: map<string, string>, scores: seq<real>, topK: int): (r: Result<Classification>)
    requires Mapped(labels, labelToSubject) && |scores| == |labels|
    ensures r.Err? <==> TopCount(|scores|, topK) == 0
    ensures r.Err? ==> r.error == EmptyTopKError
    ensures r.Ok? ==> |r.value.topPredictions| == TopCount(|scores|, topK)
    ensures r.Ok? ==> r.value.allScores.Keys == set l | l in labels :: labelToSubject[l]
  {
    var top := Take(RankDescending(scores), topK);
    if |top| == 0 then Err(EmptyTopKError)
    else
      var best := top[0];
      var preds := seq(|top|, j requires 0 <= j < |top| => PredictionAt(labels, labelToSubject, scores, top[j]));
      var all := AllScores(labels, labelToSubject, scores, |labels|);
      assert all.Keys == set l | l in labels :: labelToSubject[l] by {
        forall l | l in labels ensures labelToSubject[l] in all.Keys {
          var i :| 0 <= i < |labels| && labels[i] == l;
        }
      }
      Ok(Classification(labelToSubject[labels[best]], scores[best], preds, all))
  }

  /* ---------- properties of the result ---------- */

  /** The top predictions come out in non-increasing order of confidence. */
  lemma TopPredictionsOrdered(labels: seq<string>, labelToSubject: map<string, string>, scores: seq<real>, topK: int)
    requires Mapped(labels, labelToSubject) && |scores| == |labels|
    ensures var r := ClassifyScores(labels, labelToSubject, scores, topK);
      r.Ok? ==> forall j, k :: 0 <= j < k < |r.value.topPredictions| ==>
        r.value.topPredictions[j].confidence >= r.value.topPredictions[k].confidence
  {
    var rank := RankDescending(scores);
    var top := Take(rank, topK);
    assert forall j :: 0 <= j < |top| ==> top[j] == rank[j];
  }

  /**
   * Each top prediction is one label of the taxonomy with its own score and its own subject,
   * and the predictions name distinct labels whenever the taxonomy has no repeated label.
   */
  lemma TopPredictionsAreLabels(labels: seq<string>, labelToSubject: map<string, string>, scores: seq<real>, topK: int)
    requires Mapped(labels, labelToSubject) && |scores| == |labels|
    ensures var r := ClassifyScores(labels, labelToSubject, scores, topK);
      r.Ok? ==> forall j :: 0 <= j < |r.value.topPredictions| ==>
        exists i :: 0 <= i < |labels| &&
          r.value.topPredictions[j] == Prediction(labelToSubject[labels[i]], labels[i], scores[i])
    ensures var r := ClassifyScores(labels, labelToSubject, scores, topK);
      r.Ok? && DistinctLabels(labels) ==> forall j, k :: 0 <= j < k < |r.value.topPredictions| ==>
        r.value.topPredictions[j].labelText != r.value.topPredictions[k].labelText
  {
    var rank := RankDescending(scores);
    var top := Take(rank, topK);
    assert forall j :: 0 <= j < |top| ==> top[j] == rank[j];
    var r := ClassifyScores(labels, labelToSubject, scores, topK);
    if r.Ok? {
      var preds := r.value.topPredictions;
      forall j | 0 <= j < |preds|
        ensures exists i :: 0 <= i < |labels| && preds[j] == Prediction(labelToSubject[labels[i]], labels[i], scores[i])
      {
        assert preds[j] == PredictionAt(labels, labelToSubject, scores, top[j]);
      }
    }
  }

  /** `predicted_subject` and `confidence` are those of the first top prediction, and no label scores higher. */
  lemma PredictedIsBest(labels: seq<string>, labelToSubject: map<string, string>, scores: seq<real>, topK: int)
    requires Mapped(labels, labelToSubject) && |scores| == |labels|
    ensures var r := ClassifyScores(labels, labelToSubject, scores, topK);
      r.Ok? ==>
        && r.value.predictedSubject == r.value.topPredictions[0].subject
        && r.value.confidence == r.value.topPredictions[0].confidence
        && forall i :: 0 <= i < |scores| ==> scores[i] <= r.value.confidence
  {
    var rank := RankDescending(scores);
    var top := Take(rank, topK);
    if |top| > 0 {
      assert top[0] == rank[0];
      RankFirstIsMax(scores);
    }
  }

  /**
   * The kept predictions are the highest-scoring labels: any label scoring strictly above the
   * last kept confidence is among the top predictions.
   */
  lemma TopPredictionsAreHighest(labels: seq<string>, labelToSubject: map<string, string>, scores: seq<real>, topK: int)
    requires Mapped(labels, labelToSubject) && |scores| == |labels|
    ensures var r := ClassifyScores(labels, labelToSubject, scores, topK);
      r.Ok? ==> var preds := r.value.topPredictions;
        forall i :: 0 <= i < |scores| && scores[i] > preds[|preds| - 1].confidence ==>
          exists j :: 0 <= j < |preds| && preds[j] == PredictionAt(labels, labelToSubject, scores, i)
  {
    var rank := RankDescending(scores);
    var top := Take(rank, topK);
    var r := ClassifyScores(labels, labelToSubject, scores, topK);
    if r.Ok? {
      var preds := r.value.topPredictions;
      var last := |preds| - 1;
      assert preds[last] == PredictionAt(labels, labelToSubject, scores, top[last]);
      forall i | 0 <= i < |scores| && scores[i] > preds[last].confidence
        ensures exists j :: 0 <= j < |preds| && preds[j] == PredictionAt(labels, labelToSubject, scores, i)
      {
        assert i in rank;
        var p :| 0 <= p < |rank| && rank[p] == i;
        assert p <= last by {
          assert top[last] == rank[last];
        }
        assert top[p] == rank[p];
        assert preds[p] == PredictionAt(labels, labelToSubject, scores, top[p]);
      }
    }
  }

  /** With `top_k >= 1` and a non-empty taxonomy there are `min(top_k, |labels|)` predictions; `top_k = 0` always fails. */
  lemma TopKCount(labels: seq<string>, labelToSubject: map<string, string>, scores: seq<real>, topK: int)
    requires Mapped(labels, labelToSubject) && |scores| == |labels|
    ensures var r := ClassifyScores(labels, labelToSubject, scores, topK);
      && (topK >= 1 && |labels| >= 1 ==> r.Ok? && |r.value.topPredictions| == (if topK <= |labels| then topK else |labels|))
      && (topK == 0 ==> r == Err(EmptyTopKError))
  {
  }

  /** For a taxonomy whose labels have distinct subjects, `all_scores` gives each label's own score under its subject. */
  lemma AllScoresPerLabel(labels: seq<string>, labelToSubject: map<string, string>, scores: seq<real>, topK: int)
    requires Mapped(labels, labelToSubject) && |scores| == |labels|
    requires forall i, j :: 0 <= i < j < |labels| ==> labelToSubject[labels[i]] != labelToSubject[labels[j]]
    ensures var r := ClassifyScores(labels, labelToSubject, scores, topK);
      r.Ok? ==> forall i :: 0 <= i < |labels| ==> r.value.allScores[labelToSubject[labels[i]]] == scores[i]
  {
    var all := AllScores(labels, labelToSubject, scores, |labels|);
    assert forall i :: 0 <= i < |labels| ==> all[labelToSubject[labels[i]]] == scores[i];
  }

  /** The built-in taxonomy maps every one of its labels to a subject. */
  lemma BuiltInTaxonomy()
    ensures Mapped(SubjectLabels, LabelToSubject)
  {
  }

  /* ---------- the classifier object ---------- */

  /** The scores the provider gives for `path` cover the whole taxonomy, as the softmax over every label embedding does. */
  ghost predicate ScoresFit(encode: string -> Result<seq<real>>, path: string, n: nat) {
    encode(path).Ok? ==> |encode(path).value| == n
  }

  function DictKeys(pairs: seq<(string, string)>): (r: seq<string>)
    ensures |r| == |pairs| && forall i :: 0 <= i < |pairs| ==> r[i] == pairs[i].0
  {
    seq(|pairs|, i requires 0 <= i < |pairs| => pairs[i].0)
  }

  ghost predicate DistinctKeys(pairs: seq<(string, string)>) {
    forall i, j :: 0 <= i < j < |pairs| ==> pairs[i].0 != pairs[j].0
  }

  /** The dictionary built from `pairs` in order. */
  function DictOf(pairs: seq<(string, string)>): (r: map<string, string>)
    ensures forall k :: k in r <==> k in DictKeys(pairs)
    ensures DistinctKeys(pairs) ==> forall i :: 0 <= i < |pairs| ==> r[pairs[i].0] == pairs[i].1
  {
    if pairs == [] then map[]
    else
      var init := pairs[..|pairs| - 1];
      assert DictKeys(pairs) == DictKeys(init) + [pairs[|pairs| - 1].0];
      DictOf(init)[pairs[|pairs| - 1].0 := pairs[|pairs| - 1].1]
  }

  /** numpy's IndexError for `scores[i]` on an array of `size` scores. */
  function OutOfBoundsError(i: nat, size: nat): string {
    "index " + DecimalString(i) + " is out of bounds for axis 0 with size " + DecimalString(size)
  }

  /**
   * The class attributes `SUBJECT_LABELS` and `LABEL_TO_SUBJECT`: one taxonomy, read by every
   * classifier and extended in place by `add_custom_labels` on any of them.
   */
  class Taxonomy {
    var labels: seq<string>
    var labelToSubject: map<string, string>

    ghost predicate Valid()
      reads this
    {
      Mapped(labels, labelToSubject)
    }

    /** The taxonomy as the class body declares it. */
    constructor ()
      ensures Valid() && labels == SubjectLabels && labelToSubject == LabelToSubject
    {
      labels := SubjectLabels;
      labelToSubject := LabelToSubject;
      BuiltInTaxonomy();
    }
  }

  class SubjectClassifier {
    /** The class-level taxonomy, shared with every other classifier. */
    const taxonomy: Taxonomy
    /** How many labels `self.text_features` holds embeddings for: the label count when they were last computed. */
    var embedded: nat

    ghost predicate Valid()
      reads this, taxonomy
    {
      taxonomy.Valid() && embedded <= |taxonomy.labels|
    }

    /**
     * `SubjectClassifier()`: embeddings are computed for the taxonomy as it stands now, which
     * includes every label added through earlier classifiers.
     */
    constructor (taxonomy: Taxonomy)
      requires taxonomy.Valid()
      ensures Valid() && this.taxonomy == taxonomy && embedded == |taxonomy.labels|
    {
      this.taxonomy := taxonomy;
      embedded := |taxonomy.labels|;
    }

    /**
     * `classify_image(path, top_k)`: `encode` stands for loading the image and scoring it
     * against the cached embeddings, one score each; its failure is the exception the call
     * raises. When the shared taxonomy has grown since the embeddings were computed, the
     * ranking still works on the scores, but `all_scores` reads `scores[embedded]` and raises
     * IndexError.
     */
    function ClassifyImage(path: string, topK: int, encode: string -> Result<seq<real>>): (r: Result<Classification>)
      reads this, taxonomy
      requires Valid() && ScoresFit(encode, path, embedded)
      ensures encode(path).Err? ==> r == Err(encode(path).error)
      ensures encode(path).Ok? && embedded == |taxonomy.labels| ==>
        (r.Err? <==> TopCount(|taxonomy.labels|, topK) == 0)
      ensures encode(path).Ok? && embedded < |taxonomy.labels| ==>
        r == Err(if TopCount(embedded, topK) == 0 then EmptyTopKError else OutOfBoundsError(embedded, embedded))
      ensures r.Ok? ==>
        encode(path).Ok? && embedded == |taxonomy.labels| &&
        |r.value.topPredictions| == TopCount(|taxonomy.labels|, topK)
    {
      match encode(path)
      case Err(e) => Err(e)
      case Ok(scores) =>
        if embedded == |taxonomy.labels| then ClassifyScores(taxonomy.labels, taxonomy.labelToSubject, scores, topK)
        else if TopCount(embedded, topK) == 0 then Err(EmptyTopKError)
        else Err(OutOfBoundsError(embedded, embedded))
    }

    /**
     * `classify_batch`: one entry per path, in order; a path whose classification fails
     * becomes an error entry and the loop goes on with the next one.
     */
    method ClassifyBatch(paths: seq<string>, topK: int, encode: string -> Result<seq<real>>) returns (results: seq<BatchEntry>)
      requires Valid() && forall p :: p in paths ==> ScoresFit(encode, p, embedded)
      ensures |results| == |paths|
      ensures forall i :: 0 <= i < |paths| ==> results[i] == Entry(paths[i], ClassifyImage(paths[i], topK, encode))
    {
      results := [];
      for n := 0 to |paths|
        invariant |results| == n
        invariant forall i :: 0 <= i < n ==> results[i] == Entry(paths[i], ClassifyImage(paths[i], topK, encode))
      {
        assert paths[n] in paths;
        var entry := Entry(paths[n], ClassifyImage(paths[n], topK, encode));
        results := results + [entry];
      }
    }

    /**
     * `add_custom_labels`: the new prompts go to the end of the shared label list in
     * dictionary order and their subjects are merged into the shared table; old labels stay
     * where they were. Only this classifier recomputes its embeddings.
     */
    method AddCustomLabels(newLabels: seq<(string, string)>)
      requires Valid() && DistinctKeys(newLabels)
      modifies this, taxonomy
      ensures Valid() && embedded == |taxonomy.labels|
      ensures taxonomy.labels == old(taxonomy.labels) + DictKeys(newLabels)
      ensures taxonomy.labelToSubject == old(taxonomy.labelToSubject) + DictOf(newLabels)
    {
      taxonomy.labels := taxonomy.labels + DictKeys(newLabels);
      taxonomy.labelToSubject := taxonomy.labelToSubject + DictOf(newLabels);
      embedded := |taxonomy.labels|;
    }
  }

  /**
   * Two classifiers over the one taxonomy: a label added through the first is seen by the
   * second, whose embeddings are now one short, so its next classification raises IndexError
   * for the new label's score.
   */
  method ExtendThroughOne() returns (labelsSeenBySecond: nat, secondResult: Result<Classification>)
    ensures labelsSeenBySecond == |SubjectLabels| + 1
    ensures secondResult == Err(OutOfBoundsError(|SubjectLabels|, |SubjectLabels|))
  {
    var taxonomy := new Taxonomy();
    var first := new SubjectClassifier(taxonomy);
    var second := new SubjectClassifier(taxonomy);
    first.AddCustomLabels([("volcanic eruption diagram", "volcano")]);
    labelsSeenBySecond := |second.taxonomy.labels|;
    var scores := seq(|SubjectLabels|, _ => 0.05);
    secondResult := second.ClassifyImage("diagram.png", 3, _ => Ok(scores));
  }
}
