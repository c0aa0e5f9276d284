/**
 * The end-to-end pipeline of `ml_models/pipeline.py`: classify an image with `top_k = 3`,
 * look the predicted subject up in the asset table, and label the answer by comparing the
 * confidence with the system's threshold.
 */
module Pipeline {
  import opened Wrappers
  import opened Classify
  import opened ContentMapper

  const DefaultConfidenceThreshold: real := 0.7
  /** `process_image` always asks the classifier for three predictions. */
  const PipelineTopK: int := 3

  const HighConfidence := "high_confidence"
  const LowConfidence := "low_confidence"
  const AutomaticMessage := "Automatic recommendation"
  const ManualMessage := "Manual review recommended"

  /** The response dictionary: status, message, the "classification" part, the recommendation and the query. */
  datatype Response = Response(
    status: string,
    message: string,
    subject: string,
    confidence: real,
    topPredictions: seq<Prediction>,
    recommendation: Recommendation,
    userQuery: Option<string>)

  /** One element of `batch_process`'s result: a response, or `{status: "error", image_path, error}`. */
  datatype BatchItem = Answered(response: Response) | Errored(imagePath: string, error: string)

  /** The response built from a classification and the recommendation for its subject. */
  function Respond(c: Classification, rec: Recommendation, threshold: real, userQuery: Option<string>): (r: Response)
    ensures (r.status == HighConfidence && r.message == AutomaticMessage) <==> c.confidence >= threshold
    ensures (r.status == LowConfidence && r.message == ManualMessage) <==> c.confidence < threshold
    ensures r.subject == c.predictedSubject && r.confidence == c.confidence
    ensures r.topPredictions == c.topPredictions && r.recommendation == rec && r.userQuery == userQuery
  {
    if c.confidence >= threshold then
      Response(HighConfidence, AutomaticMessage, c.predictedSubject, c.confidence, c.topPredictions, rec, userQuery)
    else
      Response(LowConfidence, ManualMessage, c.predictedSubject, c.confidence, c.topPredictions, rec, userQuery)
  }

  /** The batch element for one path, given the outcome of processing it. */
  function ItemOf(path: string, outcome: Result<Response>): (item: BatchItem)
    ensures item.Errored? <==> outcome.Err?
    ensures item.Errored? ==> item.imagePath == path && item.error == outcome.error
    ensures item.Answered? ==> item.response == outcome.value
  {
    match outcome
    case Ok(resp) => Answered(resp)
    case Err(e) => Errored(path, e)
  }

  class EduLensIntelligence {
    const classifier: SubjectClassifier
    /** The asset table the content mapper loaded. */
    const metadata: Metadata
    const confidenceThreshold: real

    /**
     * `EduLensIntelligence(...)`: its classifier reads the class-level `taxonomy`, as extended
     * so far, and embeds all of its labels.
     */
    constructor (taxonomy: Taxonomy, metadata: Metadata, confidenceThreshold: real)
      requires taxonomy.Valid()
      ensures fresh(classifier) && classifier.Valid()
      ensures classifier.taxonomy == taxonomy && classifier.embedded == |taxonomy.labels|
      ensures this.metadata == metadata && this.confidenceThreshold == confidenceThreshold
    {
      classifier := new SubjectClassifier(taxonomy);
      this.metadata := metadata;
      this.confidenceThreshold := confidenceThreshold;
    }

    /** `EduLensIntelligence()` with the default threshold. */
    constructor WithDefaultThreshold(taxonomy: Taxonomy, metadata: Metadata)
      requires taxonomy.Valid()
      ensures fresh(classifier) && classifier.Valid()
      ensures classifier.taxonomy == taxonomy && classifier.embedded == |taxonomy.labels|
      ensures this.metadata == metadata && confidenceThreshold == DefaultConfidenceThreshold
    {
      classifier := new SubjectClassifier(taxonomy);
      this.metadata := metadata;
      confidenceThreshold := DefaultConfidenceThreshold;
    }

    /** The recommendation `process_image` asks the mapper for: default `min_confidence`, no difficulty preference. */
    function RecommendationFor(subject: string): Result<Recommendation> {
      GetRecommendation(metadata, subject, 0.5, None)
    }

    /**
     * `process_image`: the recommendation is looked up in both branches, so the threshold
     * changes only the status and the message. A failing classification or lookup is the
     * exception the call raises.
     */
    function ProcessImage(path: string, userQuery: Option<string>, encode: string -> Result<seq<real>>): (r: Result<Response>)
      reads classifier, classifier.taxonomy
      requires classifier.Valid() && ScoresFit(encode, path, classifier.embedded)
      ensures var c := classifier.ClassifyImage(path, PipelineTopK, encode);
        && (r.Err? <==> c.Err? || RecommendationFor(c.value.predictedSubject).Err?)
        && (c.Err? ==> r.error == c.error)
        && (r.Ok? ==>
              && r.value.subject == c.value.predictedSubject
              && r.value.confidence == c.value.confidence
              && r.value.topPredictions == c.value.topPredictions
              && r.value.userQuery == userQuery
              && RecommendationFor(r.value.subject) == Ok(r.value.recommendation))
      ensures r.Ok? ==>
        ((r.value.status == HighConfidence && r.value.message == AutomaticMessage) <==> r.value.confidence >= confidenceThreshold)
      ensures r.Ok? ==>
        ((r.value.status == LowConfidence && r.value.message == ManualMessage) <==> r.value.confidence < confidenceThreshold)
    {
      match classifier.ClassifyImage(path, PipelineTopK, encode)
      case Err(e) => Err(e)
      case Ok(c) =>
        match RecommendationFor(c.predictedSubject)
        case Err(e) => Err(e)
        case Ok(rec) => Ok(Respond(c, rec, confidenceThreshold, userQuery))
    }

    /**
     * `batch_process`: one element per path, in order; a path whose processing fails becomes
     * an error element and the remaining paths are still processed.
     */
    method BatchProcess(paths: seq<string>, encode: string -> Result<seq<real>>) returns (results: seq<BatchItem>)
      requires classifier.Valid() && forall p :: p in paths ==> ScoresFit(encode, p, classifier.embedded)
      ensures |results| == |paths|
      ensures forall i :: 0 <= i < |paths| ==> results[i] == ItemOf(paths[i], ProcessImage(paths[i], None, encode))
    {
      results := [];
      for n := 0 to |paths|
        invariant |results| == n
        invariant forall i :: 0 <= i < n ==> results[i] == ItemOf(paths[i], ProcessImage(paths[i], None, encode))
      {
        assert paths[n] in paths;
        results := results + [ItemOf(paths[n], ProcessImage(paths[n], None, encode))];
      }
    }
  }

  /**
   * The threshold does not gate the lookup: a confident prediction of a subject that has no
   * model yields "high_confidence" together with a "not_found" recommendation.
   */
  lemma HighConfidenceWithoutModel(c: Classification, threshold: real, userQuery: Option<string>)
    requires c.confidence >= threshold
    ensures var rec := GetRecommendation(Metadata(None), c.predictedSubject, 0.5, None);
      && rec.Ok? && rec.value.NotFound?
      && Respond(c, rec.value, threshold, userQuery).status == HighConfidence
  {
  }

  /** With a non-empty taxonomy and a scorer that answers, classification with `top_k = 3` never fails and yields min(3, n) predictions. */
  lemma PipelineClassificationSucceeds(labels: seq<string>, labelToSubject: map<string, string>, scores: seq<real>)
    requires Mapped(labels, labelToSubject) && |scores| == |labels| && |labels| > 0
    ensures var c := ClassifyScores(labels, labelToSubject, scores, PipelineTopK);
      c.Ok? && |c.value.topPredictions| == if |labels| < 3 then |labels| else 3
  {
    TopKCount(labels, labelToSubject, scores, PipelineTopK);
  }
}
