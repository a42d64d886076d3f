/** The classification an LLM answer is turned into, the record that is
    stored for a page, the six audience labels and their priorities. */
module Classifications {
  import opened Wrappers

  const AllowedLabels: set<string> :=
    {"INVESTOR_BEGINNER", "INVESTOR_QUALIFIED", "ISSUER_BEGINNER", "ISSUER_ADVANCED", "PROFESSIONAL", "OTHER"}

  /** Higher overrides lower. */
  const LabelPriority: map<string, int> :=
    map["PROFESSIONAL" := 6, "ISSUER_ADVANCED" := 5, "ISSUER_BEGINNER" := 4,
        "INVESTOR_QUALIFIED" := 3, "INVESTOR_BEGINNER" := 2, "OTHER" := 1]

  /** The priority table ranks exactly the six allowed labels. */
  lemma PriorityRanksAllowedLabels()
    ensures LabelPriority.Keys == AllowedLabels
    ensures |AllowedLabels| == 6
  {
  }

  /** The ranks are the distinct numbers 1..6, OTHER lowest and
      PROFESSIONAL highest. */
  lemma PriorityRanksDistinct()
    ensures forall a, b :: a in LabelPriority && b in LabelPriority && a != b ==> LabelPriority[a] != LabelPriority[b]
    ensures forall a :: a in LabelPriority ==> 1 <= LabelPriority[a] <= 6
    ensures forall a :: a in LabelPriority ==> LabelPriority["OTHER"] <= LabelPriority[a] <= LabelPriority["PROFESSIONAL"]
  {
  }

  /** `ClassificationResult`; pydantic keeps `confidence` within [0, 1]. */
  datatype ClassificationResult = ClassificationResult(
    labels: seq<string>,
    confidence: real,
    matchedRules: seq<string>,
    rationale: string,
    evidence: seq<string>,
    needsReview: bool,
    missingSignals: seq<string>)

  /** The `label` property: the first label, or OTHER when there is none. */
  function Label(labels: seq<string>): (l: string)
    ensures |labels| == 0 ==> l == "OTHER"
    ensures |labels| > 0 ==> l == labels[0]
  {
    if |labels| == 0 then "OTHER" else labels[0]
  }

  /** Building a `ClassificationResult`: fails validation when the confidence
      is outside [0, 1]; the omitted fields take their defaults. */
  function MakeResult(labels: seq<string>, confidence: real): (r: Result<ClassificationResult>)
    ensures r.Ok? <==> 0.0 <= confidence <= 1.0
    ensures r.Ok? ==> r.value.labels == labels && r.value.confidence == confidence
    ensures r.Ok? ==> r.value.matchedRules == [] && r.value.evidence == [] && r.value.missingSignals == []
                      && r.value.rationale == "" && !r.value.needsReview
  {
    if 0.0 <= confidence <= 1.0 then Ok(ClassificationResult(labels, confidence, [], "", [], false, []))
    else Err("confidence: must be between 0 and 1")
  }

  /** `StoredClassification`; its confidence is not range-checked. `processed_at`
      is the ISO timestamp string the JSON dump carries. */
  datatype StoredClassification = StoredClassification(
    url: string,
    finalUrl: string,
    httpStatus: Option<int>,
    labels: seq<string>,
    confidence: real,
    matchedRules: seq<string>,
    rationale: string,
    evidence: seq<string>,
    needsReview: bool,
    rulesetVersion: string,
    modelVersion: string,
    processedAt: string,
    fetchMode: string,
    contentHash: Option<string>)

  /** A stored record accepts any confidence, including ones a classification
      result would refuse. */
  lemma StoredConfidenceUnchecked(c: real)
    ensures MakeResult(["OTHER"], c).Err? <==> c < 0.0 || c > 1.0
    ensures StoredClassification("", "", None, ["OTHER"], c, [], "", [], false, "", "", "", "http", None).confidence == c
  {
  }
}
