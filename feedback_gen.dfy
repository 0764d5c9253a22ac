/** Operator feedback for one processing result (services/feedback_gen.py): a confidence score, a quality
    warning, a validation error naming the invalid critical fields, and suggestions about the corrections. */
module FeedbackGen {
  import opened Text
  import opened Processor

  /** The part of `quality_report` that is read; an absent report reads as `None`. */
  datatype QualityView = QualityView(overallQuality: Option<real>, needsReview: bool)

  /** The fields of a processing result that feedback is generated from. `criticalFields` lists the items of
      `extracted_data.critical_fields` in order, each with its `valid` entry when it has one. */
  datatype ResultView = ResultView(
    qualityReport: Option<QualityView>,
    criticalFields: seq<(string, Option<bool>)>,
    correctionsApplied: nat,
    newSuggestions: seq<NewSuggestion>)

  /** One entry of the feedback's lists. */
  datatype Notice =
    | QualityWarning
    | ValidationError(fields: seq<string>)
    | CorrectionsSuggestion(count: nat)
    | NewCorrectionsSuggestion(suggestions: seq<NewSuggestion>)

  datatype Feedback = Feedback(warnings: seq<Notice>, suggestions: seq<Notice>, errors: seq<Notice>,
                               confidenceScore: real)

  function Severity(n: Notice): string {
    match n
    case QualityWarning => "medium"
    case ValidationError(_) => "high"
    case _ => ""
  }

  function Message(n: Notice): string {
    match n
    case QualityWarning => "Документ требует ручной проверки из-за низкого качества"
    case ValidationError(fs) => "Невалидные поля: " + Join(", ", fs)
    case CorrectionsSuggestion(k) => "Применено " + NatToString(k) + " автоматических исправлений"
    case NewCorrectionsSuggestion(ss) => "Найдено " + NatToString(|ss|) + " новых паттернов для автозамены"
  }

  /** `data.get('valid', False)` is falsy. */
  predicate FieldInvalid(valid: Option<bool>) {
    valid != Some(true)
  }

  /** The names of the critical fields not marked valid, in dictionary order. */
  function InvalidFields(fields: seq<(string, Option<bool>)>): (r: seq<string>)
    ensures |r| <= |fields|
    ensures forall name :: name in r <==> exists i :: 0 <= i < |fields| && fields[i].0 == name && FieldInvalid(fields[i].1)
  {
    if fields == [] then []
    else
      var init := fields[..|fields| - 1];
      var f := fields[|fields| - 1];
      assert forall i :: 0 <= i < |init| ==> init[i] == fields[i];
      InvalidFields(init) + (if FieldInvalid(f.1) then [f.0] else [])
  }

  function ConfidenceScore(r: ResultView): real {
    if r.qualityReport.Some? && r.qualityReport.value.overallQuality.Some? then r.qualityReport.value.overallQuality.value
    else 0.0
  }

  predicate NeedsReview(r: ResultView) {
    r.qualityReport.Some? && r.qualityReport.value.needsReview
  }

  /** `generate_feedback`: each list is filled by the checks in turn. */
  method GenerateFeedback(r: ResultView) returns (fb: Feedback)
    ensures fb.confidenceScore == ConfidenceScore(r)
    ensures r.qualityReport.None? ==> fb.confidenceScore == 0.0
    ensures fb.warnings == (if NeedsReview(r) then [QualityWarning] else [])
    ensures |fb.errors| <= 1
    ensures fb.errors != [] <==> exists i :: 0 <= i < |r.criticalFields| && FieldInvalid(r.criticalFields[i].1)
    ensures forall e :: e in fb.errors ==> e == ValidationError(InvalidFields(r.criticalFields))
    ensures CorrectionsSuggestion(r.correctionsApplied) in fb.suggestions <==> r.correctionsApplied > 0
    ensures NewCorrectionsSuggestion(r.newSuggestions) in fb.suggestions <==> r.newSuggestions != []
    ensures |fb.suggestions| == (if r.correctionsApplied > 0 then 1 else 0) + (if r.newSuggestions != [] then 1 else 0)
    ensures r.correctionsApplied > 0 ==> fb.suggestions[0] == CorrectionsSuggestion(r.correctionsApplied)
  {
    var warnings: seq<Notice> := [];
    var suggestions: seq<Notice> := [];
    var errors: seq<Notice> := [];
    if NeedsReview(r) {
      warnings := warnings + [QualityWarning];
    }
    var invalid := InvalidFields(r.criticalFields);
    if invalid != [] {
      assert invalid[0] in invalid;
      errors := errors + [ValidationError(invalid)];
    } else {
      forall i | 0 <= i < |r.criticalFields| ensures !FieldInvalid(r.criticalFields[i].1) {
        assert r.criticalFields[i].0 !in invalid;
      }
    }
    if r.correctionsApplied > 0 {
      suggestions := suggestions + [CorrectionsSuggestion(r.correctionsApplied)];
    }
    if r.newSuggestions != [] {
      suggestions := suggestions + [NewCorrectionsSuggestion(r.newSuggestions)];
    }
    fb := Feedback(warnings, suggestions, errors, ConfidenceScore(r));
  }
}
