/** Quality scoring of a recognised page (services/quality_check.py). The image metrics that OpenCV measures
    (Laplacian variance, standard deviation and mean of the grey levels) are inputs. */
module QualityCheck {
  import opened Text

  const ReviewThreshold: real := 0.7

  datatype IssueKind = Blur | LowContrast | Brightness
  datatype Severity = High | Medium
  datatype Issue = Issue(kind: IssueKind, severity: Severity)

  /** The grey-level statistics of a page image. */
  datatype ImageMetrics = ImageMetrics(laplacianVariance: real, stdDev: real, mean: real)

  datatype ImageQuality = ImageQuality(sharpness: real, contrast: real, brightness: real, overall: real, issues: seq<Issue>)

  /** A bounding box; a coordinate the engine did not report is 0. */
  datatype Area = Area(x1: real, y1: real, x2: real, y2: real, width: real, height: real)

  /** A recognised text region; a missing text is "" and a missing confidence 0.0. */
  datatype Region = Region(text: string, confidence: real, bbox: Area)

  /** The engine's detail record: text regions, or the older parallel lists. */
  datatype DetailedData = DetailedData(
    textRegions: seq<Region>,
    conf: seq<real>, text: seq<string>,
    left: seq<real>, top: seq<real>, width: seq<real>, height: seq<real>)

  /** An OCR result: `detailed` is None when the detail record is missing or empty; a missing page number is 1
      and a missing confidence 0.0. */
  datatype OcrData = OcrData(detailed: Option<DetailedData>, pageNumber: int, confidence: real)

  datatype HandwrittenArea = HandwrittenArea(area: Area, confidence: real, text: string, pageNumber: int)

  /** An entry of the report's combined issue list. */
  datatype Problem = ImageIssue(issue: Issue) | Handwritten(area: HandwrittenArea)

  datatype Warning = LowImageQuality | HandwrittenFound(count: nat) | TextOverlay

  datatype QualityReport = QualityReport(
    overall: real, image: ImageQuality, ocrConfidence: real, issues: seq<Problem>,
    warnings: seq<Warning>, handwritten: seq<HandwrittenArea>, needsReview: bool)

  // ---------------------------------------------------------------- image scores

  function Min(a: real, b: real): real { if a <= b then a else b }

  function SharpnessScore(m: ImageMetrics): real { Min(m.laplacianVariance / 100.0, 1.0) }
  function ContrastScore(m: ImageMetrics): real { Min(m.stdDev / 50.0, 1.0) }
  function BrightnessScore(m: ImageMetrics): real { 1.0 - Abs(m.mean - 127.5) / 127.5 }

  /** The issues raised for three scores, in the order blur, contrast, brightness. */
  function IssuesFor(sharpness: real, contrast: real, brightness: real): seq<Issue> {
    (if sharpness < 0.5 then [Issue(Blur, if sharpness < 0.3 then High else Medium)] else [])
    + (if contrast < 0.5 then [Issue(LowContrast, Medium)] else [])
    + (if brightness < 0.5 then [Issue(Brightness, Medium)] else [])
  }

  function KindsOf(issues: seq<Issue>): seq<IssueKind> {
    seq(|issues|, i requires 0 <= i < |issues| => issues[i].kind)
  }

  /** Blur is reported iff sharpness is below 0.5, high exactly below 0.3; low contrast and brightness iff
      their scores are below 0.5, always medium; no kind is reported twice. */
  lemma IssuesForSpec(sharpness: real, contrast: real, brightness: real)
    ensures var issues := IssuesFor(sharpness, contrast, brightness);
      && (Blur in KindsOf(issues) <==> sharpness < 0.5)
      && (LowContrast in KindsOf(issues) <==> contrast < 0.5)
      && (Brightness in KindsOf(issues) <==> brightness < 0.5)
      && (forall i :: 0 <= i < |issues| ==>
            (issues[i].severity == High <==> issues[i].kind == Blur && sharpness < 0.3))
      && (forall i, j :: 0 <= i < j < |issues| ==> issues[i].kind != issues[j].kind)
  {
    var blur := if sharpness < 0.5 then [Issue(Blur, if sharpness < 0.3 then High else Medium)] else [];
    var low := if contrast < 0.5 then [Issue(LowContrast, Medium)] else [];
    var bright := if brightness < 0.5 then [Issue(Brightness, Medium)] else [];
    var issues := IssuesFor(sharpness, contrast, brightness);
    assert issues == blur + low + bright;
    if sharpness < 0.5 {
      assert KindsOf(issues)[0] == Blur;
    }
    if contrast < 0.5 {
      assert KindsOf(issues)[|blur|] == LowContrast;
    }
    if brightness < 0.5 {
      assert KindsOf(issues)[|issues| - 1] == Brightness;
    }
  }

  /** `_detect_issues`: the conditional appends. */
  method DetectIssues(sharpness: real, contrast: real, brightness: real) returns (issues: seq<Issue>)
    ensures issues == IssuesFor(sharpness, contrast, brightness)
  {
    issues := [];
    if sharpness < 0.5 {
      issues := issues + [Issue(Blur, if sharpness < 0.3 then High else Medium)];
    }
    if contrast < 0.5 {
      issues := issues + [Issue(LowContrast, Medium)];
    }
    if brightness < 0.5 {
      issues := issues + [Issue(Brightness, Medium)];
    }
  }

  /** `check_image_quality` on measured metrics. */
  function CheckImageQuality(m: ImageMetrics): (q: ImageQuality)
    ensures q.sharpness <= 1.0 && q.contrast <= 1.0 && q.brightness <= 1.0
    ensures q.overall * 3.0 == q.sharpness + q.contrast + q.brightness
    ensures q.issues == IssuesFor(q.sharpness, q.contrast, q.brightness)
  {
    var s := SharpnessScore(m);
    var c := ContrastScore(m);
    var b := BrightnessScore(m);
    ImageQuality(s, c, b, (s + c + b) / 3.0, IssuesFor(s, c, b))
  }

  /** For the statistics of a real 8-bit image every score and the image overall lie in [0, 1], and
      brightness is perfect exactly at mid-grey. */
  lemma ImageScoresInRange(m: ImageMetrics)
    requires m.laplacianVariance >= 0.0 && m.stdDev >= 0.0 && 0.0 <= m.mean <= 255.0
    ensures var q := CheckImageQuality(m);
      && 0.0 <= q.sharpness <= 1.0 && 0.0 <= q.contrast <= 1.0 && 0.0 <= q.brightness <= 1.0
      && 0.0 <= q.overall <= 1.0
      && (q.brightness == 1.0 <==> m.mean == 127.5)
  {
  }

  // ---------------------------------------------------------------- possibly handwritten areas

  /** Region mode: non-blank text recognised with confidence below 0.5. */
  predicate RegionFlagged(r: Region) {
    !IsBlank(r.text) && r.confidence < 0.5
  }

  function RegionArea(r: Region, page: int): HandwrittenArea {
    HandwrittenArea(r.bbox, r.confidence, r.text, page)
  }

  function RegionAreas(regions: seq<Region>, page: int): seq<HandwrittenArea> {
    if regions == [] then []
    else
      var prev := RegionAreas(regions[..|regions| - 1], page);
      var r := regions[|regions| - 1];
      if RegionFlagged(r) then prev + [RegionArea(r, page)] else prev
  }

  /** Region mode reports exactly the flagged regions, each with its own box, text and confidence. */
  lemma {:induction false} RegionAreasExact(regions: seq<Region>, page: int)
    ensures var out := RegionAreas(regions, page);
      && |out| <= |regions|
      && (forall i :: 0 <= i < |regions| && RegionFlagged(regions[i]) ==> RegionArea(regions[i], page) in out)
      && (forall a :: a in out ==> exists i :: 0 <= i < |regions| && RegionFlagged(regions[i]) && a == RegionArea(regions[i], page))
  {
    if regions != [] {
      var init := regions[..|regions| - 1];
      RegionAreasExact(init, page);
      assert forall i :: 0 <= i < |init| ==> init[i] == regions[i];
    }
  }

  /** `xs[i]` when the list is long enough, 0 otherwise. */
  function At(xs: seq<real>, i: nat): real {
    if i < |xs| then xs[i] else 0.0
  }

  /** Legacy mode, entry `i` of the zipped text and confidence lists: 0 < int(conf) < 50 and non-blank text. */
  predicate LegacyFlagged(d: DetailedData, i: nat)
    requires i < |d.text| && i < |d.conf|
  {
    Trunc(d.conf[i]) > 0 && !IsBlank(d.text[i]) && Trunc(d.conf[i]) < 50
  }

  function LegacyArea(d: DetailedData, i: nat, page: int): HandwrittenArea
    requires i < |d.text| && i < |d.conf|
  {
    var left := At(d.left, i);
    var top := At(d.top, i);
    var width := At(d.width, i);
    var height := At(d.height, i);
    HandwrittenArea(Area(left, top, left + width, top + height, width, height),
                    Trunc(d.conf[i]) as real / 100.0, d.text[i], page)
  }

  function ZipLength(d: DetailedData): nat {
    if |d.text| <= |d.conf| then |d.text| else |d.conf|
  }

  function LegacyAreas(d: DetailedData, page: int, n: nat): seq<HandwrittenArea>
    requires n <= ZipLength(d)
  {
    if n == 0 then []
    else
      var prev := LegacyAreas(d, page, n - 1);
      if LegacyFlagged(d, n - 1) then prev + [LegacyArea(d, n - 1, page)] else prev
  }

  /** Legacy mode reports exactly the flagged entries; each reported box has x2 = x1 + width and
      y2 = y1 + height, and its confidence lies strictly between 0 and 0.5. */
  lemma {:induction false} LegacyAreasExact(d: DetailedData, page: int, n: nat)
    requires n <= ZipLength(d)
    ensures var out := LegacyAreas(d, page, n);
      && |out| <= n
      && (forall i :: 0 <= i < n && LegacyFlagged(d, i) ==> LegacyArea(d, i, page) in out)
      && (forall a :: a in out ==> exists i :: 0 <= i < n && LegacyFlagged(d, i) && a == LegacyArea(d, i, page))
      && (forall a :: a in out ==>
            a.area.x2 == a.area.x1 + a.area.width && a.area.y2 == a.area.y1 + a.area.height
            && 0.0 < a.confidence < 0.5)
  {
    if n > 0 {
      LegacyAreasExact(d, page, n - 1);
    }
  }

  /** `detect_handwritten_text` as a value. */
  function HandwrittenAreas(ocr: OcrData): seq<HandwrittenArea> {
    match ocr.detailed
    case None => []
    case Some(d) =>
      if d.textRegions != [] then RegionAreas(d.textRegions, ocr.pageNumber)
      else LegacyAreas(d, ocr.pageNumber, ZipLength(d))
  }

  /** `detect_handwritten_text`: the loop over text regions, or over the zipped legacy lists. */
  method DetectHandwrittenText(ocr: OcrData) returns (areas: seq<HandwrittenArea>)
    ensures areas == HandwrittenAreas(ocr)
    ensures ocr.detailed.None? ==> areas == []
  {
    areas := [];
    if ocr.detailed.None? {
      return;
    }
    var d := ocr.detailed.value;
    if d.textRegions != [] {
      var regions := d.textRegions;
      for i := 0 to |regions|
        invariant areas == RegionAreas(regions[..i], ocr.pageNumber)
      {
        assert regions[..i + 1][..i] == regions[..i];
        var r := regions[i];
        if !IsBlank(r.text) && r.confidence < 0.5 {
          areas := areas + [HandwrittenArea(r.bbox, r.confidence, r.text, ocr.pageNumber)];
        }
      }
      assert regions[..|regions|] == regions;
    } else {
      for i := 0 to ZipLength(d)
        invariant areas == LegacyAreas(d, ocr.pageNumber, i)
      {
        var conf := Trunc(d.conf[i]);
        if conf > 0 && !IsBlank(d.text[i]) && conf < 50 {
          var left := if i < |d.left| then d.left[i] else 0.0;
          var top := if i < |d.top| then d.top[i] else 0.0;
          var width := if i < |d.width| then d.width[i] else 0.0;
          var height := if i < |d.height| then d.height[i] else 0.0;
          areas := areas + [HandwrittenArea(Area(left, top, left + width, top + height, width, height),
                                            conf as real / 100.0, d.text[i], ocr.pageNumber)];
        }
      }
    }
  }

  // ---------------------------------------------------------------- the report

  /** The weighted composite before clamping. */
  function RawComposite(image: real, ocr: real, handwritten: nat): real {
    image * 0.3 + ocr * 0.5 + (1.0 - handwritten as real * 0.1) * 0.2
  }

  function Composite(image: real, ocr: real, handwritten: nat): (r: real)
    ensures 0.0 <= r <= 1.0
  {
    Clamp(RawComposite(image, ocr, handwritten), 0.0, 1.0)
  }

  /** A more confident recognition and fewer handwritten areas never lower the composite. */
  lemma CompositeMonotone(image: real, ocr1: real, ocr2: real, n1: nat, n2: nat)
    requires ocr1 <= ocr2 && n2 <= n1
    ensures Composite(image, ocr1, n1) <= Composite(image, ocr2, n2)
  {
  }

  /** `check_quality`. */
  function CheckQuality(m: ImageMetrics, ocr: OcrData): (r: QualityReport)
    ensures r.image == CheckImageQuality(m)
    ensures r.overall == Composite(r.image.overall, ocr.confidence, |r.handwritten|) && 0.0 <= r.overall <= 1.0
    ensures r.ocrConfidence == ocr.confidence
    ensures r.handwritten == HandwrittenAreas(ocr)
    ensures |r.issues| == |r.image.issues| + |r.handwritten|
    ensures forall i :: 0 <= i < |r.image.issues| ==> r.issues[i] == ImageIssue(r.image.issues[i])
    ensures forall i :: 0 <= i < |r.handwritten| ==> r.issues[|r.image.issues| + i] == Handwritten(r.handwritten[i])
    ensures r.needsReview <==> r.overall < ReviewThreshold || |r.issues| > 0
    ensures r.handwritten != [] ==> r.needsReview
    ensures LowImageQuality in r.warnings <==> r.image.overall < ReviewThreshold
    ensures (exists n :: HandwrittenFound(n) in r.warnings) <==> r.handwritten != []
    ensures forall n :: HandwrittenFound(n) in r.warnings ==> n == |r.handwritten|
    ensures TextOverlay !in r.warnings
  {
    var image := CheckImageQuality(m);
    var areas := HandwrittenAreas(ocr);
    var overall := Composite(image.overall, ocr.confidence, |areas|);
    var issues := seq(|image.issues|, i requires 0 <= i < |image.issues| => ImageIssue(image.issues[i]))
                  + seq(|areas|, i requires 0 <= i < |areas| => Handwritten(areas[i]));
    var warnings := (if image.overall < ReviewThreshold then [LowImageQuality] else [])
                    + (if areas != [] then [HandwrittenFound(|areas|)] else []);
    QualityReport(overall, image, ocr.confidence, issues, warnings, areas,
                  overall < ReviewThreshold || |issues| > 0)
  }
}
