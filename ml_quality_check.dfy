/** The ML-assisted quality check (services/ml_quality_check.py): handwriting candidates from the OCR
    detail lists, and the report that combines the image model's score with the OCR confidence. The
    image model's score is an input. */
module MlQualityCheck {
  import opened Text
  import opened QualityCheck

  const ConfidenceCeiling: int := 60
  const ShortText: nat := 10
  const DefaultWidth: real := 50.0
  const DefaultHeight: real := 20.0
  const DisagreementLimit: real := 0.3
  const ReviewThreshold: real := 0.7
  const MaxRegions: nat := 3
  const LowMlScore: real := 0.6

  datatype Box = Box(x1: real, y1: real, x2: real, y2: real)

  /** A `handwritten_text` region with its OCR confidence scaled to [0, 1]. */
  datatype MlRegion = MlRegion(area: Box, confidence: real, text: string)

  datatype MlSeverity = MediumSeverity | LowSeverity

  datatype MlIssue = LowMlQuality(score: real, severity: MlSeverity)

  datatype MlReport = MlReport(
    overallQuality: real, mlQualityScore: real, ocrConfidence: real, regions: seq<MlRegion>,
    needsReview: bool, issues: seq<MlIssue>)

  // ---------------------------------------------------------------- regions

  /** `len(text.strip()) < 10`. */
  predicate ShortStripped(t: string) {
    |Strip(t)| < ShortText
  }

  /** Entry `i` of the zipped text and confidence lists is reported: 0 < int(conf) < 60, its stripped text is
      non-empty and shorter than 10 characters, and it has a left and a top coordinate. */
  predicate MlFlagged(d: DetailedData, i: nat)
    requires i < |d.text| && i < |d.conf|
  {
    && Trunc(d.conf[i]) > 0 && !IsBlank(d.text[i])
    && Trunc(d.conf[i]) < ConfidenceCeiling && ShortStripped(d.text[i])
    && i < |d.left| && i < |d.top|
  }

  function MlRegionAt(d: DetailedData, i: nat): MlRegion
    requires i < |d.text| && i < |d.conf| && i < |d.left| && i < |d.top|
  {
    var x2 := if i < |d.width| then d.left[i] + d.width[i] else d.left[i] + DefaultWidth;
    var y2 := if i < |d.height| then d.top[i] + d.height[i] else d.top[i] + DefaultHeight;
    MlRegion(Box(d.left[i], d.top[i], x2, y2), Trunc(d.conf[i]) as real / 100.0, d.text[i])
  }

  /** The regions reported among the first `n` zipped entries. */
  function MlRegions(d: DetailedData, n: nat): seq<MlRegion>
    requires n <= ZipLength(d)
  {
    if n == 0 then []
    else
      var prev := MlRegions(d, n - 1);
      if MlFlagged(d, n - 1) then prev + [MlRegionAt(d, n - 1)] else prev
  }

  /** What a reported region looks like: confidence strictly between 0 and 0.6, a non-blank text of fewer than
      10 characters once stripped, and a box whose far corner adds the entry's width and height, or 50 and 20
      when they are missing. */
  predicate RegionShape(d: DetailedData, i: nat, r: MlRegion)
    requires i < |d.left| && i < |d.top|
  {
    && 0.0 < r.confidence < LowMlScore && !IsBlank(r.text) && ShortStripped(r.text)
    && r.area.x1 == d.left[i] && r.area.y1 == d.top[i]
    && r.area.x2 - r.area.x1 == (if i < |d.width| then d.width[i] else DefaultWidth)
    && r.area.y2 - r.area.y1 == (if i < |d.height| then d.height[i] else DefaultHeight)
  }

  lemma RegionAtShape(d: DetailedData, i: nat)
    requires i < |d.text| && i < |d.conf| && MlFlagged(d, i)
    ensures RegionShape(d, i, MlRegionAt(d, i))
  {
    var c := Trunc(d.conf[i]);
    assert 1 <= c <= 59;
    assert c as real / 100.0 < LowMlScore;
  }

  /** Exactly the flagged entries are reported, each in the shape `RegionShape` describes. */
  lemma {:induction false} MlRegionsExact(d: DetailedData, n: nat)
    requires n <= ZipLength(d)
    ensures |MlRegions(d, n)| <= n
    ensures forall i :: 0 <= i < n && MlFlagged(d, i) ==> MlRegionAt(d, i) in MlRegions(d, n)
    ensures forall r :: r in MlRegions(d, n) ==> exists i :: 0 <= i < n && MlFlagged(d, i) && r == MlRegionAt(d, i)
  {
    if n > 0 {
      MlRegionsExact(d, n - 1);
      var prev := MlRegions(d, n - 1);
      if MlFlagged(d, n - 1) {
        assert MlRegions(d, n) == prev + [MlRegionAt(d, n - 1)];
      } else {
        assert MlRegions(d, n) == prev;
      }
    }
  }

  /** Every reported region has the shape of the entry it came from. */
  lemma RegionsShaped(d: DetailedData, n: nat)
    requires n <= ZipLength(d)
    ensures forall r :: r in MlRegions(d, n) ==>
      exists i :: 0 <= i < n && i < |d.left| && i < |d.top| && RegionShape(d, i, r) && r.text == d.text[i]
  {
    MlRegionsExact(d, n);
    forall r | r in MlRegions(d, n)
      ensures exists i :: 0 <= i < n && i < |d.left| && i < |d.top| && RegionShape(d, i, r) && r.text == d.text[i]
    {
      var i :| 0 <= i < n && MlFlagged(d, i) && r == MlRegionAt(d, i);
      RegionAtShape(d, i);
    }
  }

  /** `detect_handwritten_regions`: the loop over the zipped lists; nothing without a detail record. */
  method DetectHandwrittenRegions(ocr: OcrData) returns (regions: seq<MlRegion>)
    ensures ocr.detailed.None? ==> regions == []
    ensures ocr.detailed.Some? ==> regions == MlRegions(ocr.detailed.value, ZipLength(ocr.detailed.value))
  {
    regions := [];
    if ocr.detailed.None? {
      return;
    }
    var d := ocr.detailed.value;
    for i := 0 to ZipLength(d)
      invariant regions == MlRegions(d, i)
    {
      var conf := Trunc(d.conf[i]);
      var text := d.text[i];
      if conf > 0 && !IsBlank(text) {
        if conf < ConfidenceCeiling && ShortStripped(text) {
          if i < |d.left| && i < |d.top| {
            var x2 := if i < |d.width| then d.left[i] + d.width[i] else d.left[i] + DefaultWidth;
            var y2 := if i < |d.height| then d.top[i] + d.height[i] else d.top[i] + DefaultHeight;
            assert MlFlagged(d, i);
            var region := MlRegion(Box(d.left[i], d.top[i], x2, y2), conf as real / 100.0, text);
            assert region == MlRegionAt(d, i);
            regions := regions + [region];
          } else {
            assert !MlFlagged(d, i);
          }
        } else {
          assert !MlFlagged(d, i);
        }
      } else {
        assert !MlFlagged(d, i);
      }
    }
  }

  /** The regions of an OCR result, as `DetectHandwrittenRegions` computes them. */
  function RegionsOf(ocr: OcrData): seq<MlRegion> {
    if ocr.detailed.None? then [] else MlRegions(ocr.detailed.value, ZipLength(ocr.detailed.value))
  }

  // ---------------------------------------------------------------- the report

  function Clamp01(x: real): real {
    if x < 0.0 then 0.0 else if x > 1.0 then 1.0 else x
  }

  /** The weighted score: 0.2 of the model's, 0.6 of the OCR confidence and 0.2 of a handwriting term that
      loses 0.05 per region, clamped to [0, 1]. */
  function Blended(ml: real, ocr: real, n: nat): real {
    Clamp01(ml * 0.2 + ocr * 0.6 + (1.0 - n as real * 0.05) * 0.2)
  }

  /** When the two scores differ by more than 0.3, 0.8 of the OCR confidence and 0.2 of the model's. */
  function Conservative(ml: real, ocr: real): real {
    ocr * 0.8 + ml * 0.2
  }

  /** `check_quality_ml` on the model's score, the regions found and the OCR confidence. */
  function CheckQualityMl(ml: real, regions: seq<MlRegion>, ocr: real): (r: MlReport)
    ensures Abs(ml - ocr) > DisagreementLimit ==> r.overallQuality == Conservative(ml, ocr)
    ensures Abs(ml - ocr) <= DisagreementLimit ==> r.overallQuality == Blended(ml, ocr, |regions|)
    ensures Abs(ml - ocr) <= DisagreementLimit ==> 0.0 <= r.overallQuality <= 1.0
    ensures r.needsReview <==> r.overallQuality < ReviewThreshold || |regions| > MaxRegions
    ensures r.issues != [] <==> ml < LowMlScore
    ensures forall i :: 0 <= i < |r.issues| ==> r.issues[i] == LowMlQuality(ml, MediumSeverity)
    ensures |r.issues| <= 1 && r.regions == regions && r.mlQualityScore == ml && r.ocrConfidence == ocr
  {
    var blended := Blended(ml, ocr, |regions|);
    var overall := if Abs(ml - ocr) > DisagreementLimit then Conservative(ml, ocr) else blended;
    var severity := if ml < LowMlScore then MediumSeverity else LowSeverity;
    var issues := if ml < LowMlScore then [LowMlQuality(ml, severity)] else [];
    MlReport(overall, ml, ocr, regions, overall < ReviewThreshold || |regions| > MaxRegions, issues)
  }

  /** The conservative score lies between the two scores it combines. */
  lemma ConservativeBetween(ml: real, ocr: real)
    ensures Min(ml, ocr) <= Conservative(ml, ocr) <= (if ml <= ocr then ocr else ml)
  {
  }

  /** With both scores in [0, 1] the overall score is in [0, 1] on either branch; only the blended branch is
      clamped, the conservative one stays in range because it lies between the two. */
  lemma OverallInUnit(ml: real, regions: seq<MlRegion>, ocr: real)
    requires 0.0 <= ml <= 1.0 && 0.0 <= ocr <= 1.0
    ensures 0.0 <= CheckQualityMl(ml, regions, ocr).overallQuality <= 1.0
  {
    ConservativeBetween(ml, ocr);
  }

  /** Each extra region lowers the blended score or leaves it clamped. */
  lemma BlendedAntitone(ml: real, ocr: real, n1: nat, n2: nat)
    requires n1 <= n2
    ensures Blended(ml, ocr, n2) <= Blended(ml, ocr, n1)
  {
  }
}
