/** Rule-based validation of a classification and the fix that flags it for
    review. Both rules about review look at the first label only. */
module Validation {
  import opened Classifications

  /** One entry of the error list, in the order the rules are checked. */
  datatype ValidationError =
    | InvalidLabel(first: string)
    | ConfidenceOutOfRange(confidence: real)
    | NonOtherWithoutRules
    | LowConfidenceUnreviewed

  predicate LabelErrorRule(r: ClassificationResult) {
    Label(r.labels) !in AllowedLabels
  }

  predicate ConfidenceRule(r: ClassificationResult) {
    !(0.0 <= r.confidence <= 1.0)
  }

  predicate NoRulesRule(r: ClassificationResult) {
    Label(r.labels) != "OTHER" && |r.matchedRules| == 0 && !r.needsReview
  }

  predicate LowConfidenceRule(r: ClassificationResult) {
    r.confidence < 0.5 && !r.needsReview
  }

  /** The errors rules 1, 2, 4 and 5 report, in that order. */
  function ValidationErrors(r: ClassificationResult): (errs: seq<ValidationError>)
    ensures |errs| <= 4
  {
    (if LabelErrorRule(r) then [InvalidLabel(Label(r.labels))] else [])
    + (if ConfidenceRule(r) then [ConfidenceOutOfRange(r.confidence)] else [])
    + (if NoRulesRule(r) then [NonOtherWithoutRules] else [])
    + (if LowConfidenceRule(r) then [LowConfidenceUnreviewed] else [])
  }

  /** Each error is reported exactly when its rule fires; only the first label
      is checked, so a bad second label goes unnoticed. */
  lemma ErrorsMatchRules(r: ClassificationResult)
    ensures (exists l :: InvalidLabel(l) in ValidationErrors(r)) <==> Label(r.labels) !in AllowedLabels
    ensures InvalidLabel(Label(r.labels)) in ValidationErrors(r) <==> Label(r.labels) !in AllowedLabels
    ensures (exists c :: ConfidenceOutOfRange(c) in ValidationErrors(r)) <==> (r.confidence < 0.0 || r.confidence > 1.0)
    ensures NonOtherWithoutRules in ValidationErrors(r)
            <==> Label(r.labels) != "OTHER" && |r.matchedRules| == 0 && !r.needsReview
    ensures LowConfidenceUnreviewed in ValidationErrors(r) <==> r.confidence < 0.5 && !r.needsReview
  {
    var e1 := if LabelErrorRule(r) then [InvalidLabel(Label(r.labels))] else [];
    var e2 := if ConfidenceRule(r) then [ConfidenceOutOfRange(r.confidence)] else [];
    var e3 := if NoRulesRule(r) then [NonOtherWithoutRules] else [];
    var e4 := if LowConfidenceRule(r) then [LowConfidenceUnreviewed] else [];
    assert ValidationErrors(r) == e1 + e2 + e3 + e4;
    forall e | e in ValidationErrors(r) ensures e in e1 || e in e2 || e in e3 || e in e4 {
    }
  }

  /** Only the first label is checked: anything may follow an allowed first label. */
  lemma LaterLabelsUnchecked(r: ClassificationResult, extra: seq<string>)
    requires |r.labels| > 0
    ensures ValidationErrors(r.(labels := r.labels + extra)) == ValidationErrors(r)
  {
    assert Label(r.labels + extra) == Label(r.labels);
  }

  /** `validate_tool`: the rule-ID scan of the ruleset (rule 3) never adds an
      error, so the rule IDs read from the ruleset do not affect the outcome. */
  method ValidateTool(result: ClassificationResult, rulesetRuleIds: set<string>)
    returns (isValid: bool, errors: seq<ValidationError>)
    ensures errors == ValidationErrors(result)
    ensures isValid <==> |errors| == 0
  {
    errors := [];
    if Label(result.labels) !in AllowedLabels {
      errors := errors + [InvalidLabel(Label(result.labels))];
    }
    if !(0.0 <= result.confidence <= 1.0) {
      errors := errors + [ConfidenceOutOfRange(result.confidence)];
    }
    if Label(result.labels) != "OTHER" && |result.matchedRules| == 0 && !result.needsReview {
      errors := errors + [NonOtherWithoutRules];
    }
    if result.confidence < 0.5 && !result.needsReview {
      errors := errors + [LowConfidenceUnreviewed];
    }
    isValid := |errors| == 0;
  }

  /** `apply_validation_fixes`: sets `needs_review` when the first label is not
      OTHER and no rule matched, or when the confidence is below 0.5; nothing
      else changes. */
  function ApplyValidationFixes(r: ClassificationResult): (f: ClassificationResult)
    ensures f == r.(needsReview := f.needsReview)
    ensures f.needsReview <==> r.needsReview || (Label(r.labels) != "OTHER" && |r.matchedRules| == 0) || r.confidence < 0.5
  {
    var r1 := if Label(r.labels) != "OTHER" && |r.matchedRules| == 0 then r.(needsReview := true) else r;
    if r1.confidence < 0.5 then r1.(needsReview := true) else r1
  }

  /** The fix never clears the review flag, a second fix changes nothing,
      and afterwards rules 4 and 5 cannot fire. */
  lemma FixProperties(r: ClassificationResult)
    ensures r.needsReview ==> ApplyValidationFixes(r).needsReview
    ensures ApplyValidationFixes(ApplyValidationFixes(r)) == ApplyValidationFixes(r)
    ensures var e := ValidationErrors(ApplyValidationFixes(r));
      NonOtherWithoutRules !in e && LowConfidenceUnreviewed !in e
    ensures ValidationErrors(ApplyValidationFixes(r)) ==
      (if LabelErrorRule(r) then [InvalidLabel(Label(r.labels))] else [])
      + (if ConfidenceRule(r) then [ConfidenceOutOfRange(r.confidence)] else [])
  {
    var f := ApplyValidationFixes(r);
    ErrorsMatchRules(f);
  }

  /** On a result that passes validation the fix is the identity, so fixing
      only invalid results is the same as fixing every result. */
  lemma FixIdentityWhenValid(r: ClassificationResult)
    requires |ValidationErrors(r)| == 0
    ensures ApplyValidationFixes(r) == r
  {
    ErrorsMatchRules(r);
  }

  /** What the agent carries on: the result itself when valid, the fixed one otherwise. */
  function FixIfInvalid(r: ClassificationResult): (f: ClassificationResult)
    ensures f == ApplyValidationFixes(r)
  {
    if |ValidationErrors(r)| == 0 then FixIdentityWhenValid(r); r else ApplyValidationFixes(r)
  }
}
