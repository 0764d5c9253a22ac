/** The decision logic of the document pipeline (core/processor.py) around recognition: selected-area
    rescaling and labelling, page combination, the document review flag, implicit feedback and the batch
    summary with its suggestion mining. Recognition, image loading and the classifier are inputs. */
module Processor {
  import opened Text
  import opened Correctors
  import opened Validators
  import opened QualityCheck
  import opened FeedbackCollector

  const HighDpi: int := 900
  const FallbackScale: real := 3.0
  const AreasHeader: string := "\n\n--- ВЫДЕЛЕННЫЕ ОБЛАСТИ (DPI 900) ---\n\n"
  const AreaSeparator: string := "\n\n"
  const MainTextMarker: string := "\n\n--- ОСНОВНОЙ ТЕКСТ ---\n\n"
  const PageSeparator: string := "\n\n--- Страница ---\n\n"
  const ContextLimit: nat := 200
  const MiningThreshold: real := 0.8
  const SuggestionConfidence: real := 0.7
  const MissingAttribute: string := "'FieldValidator' object has no attribute 'extract_important_data'"

  // ---------------------------------------------------------------- selected areas

  /** A selected area as the client sends it; a missing coordinate reads as 0. */
  datatype SelectedArea = SelectedArea(x1: Option<int>, y1: Option<int>, x2: Option<int>, y2: Option<int>)

  datatype Box = Box(x1: int, y1: int, x2: int, y2: int)

  function OrZero(c: Option<int>): int { if c.Some? then c.value else 0 }

  function Coordinates(a: SelectedArea): Box {
    Box(OrZero(a.x1), OrZero(a.y1), OrZero(a.x2), OrZero(a.y2))
  }

  /** The measured ratio of the high-resolution size to the normal one; 3.0 when the normal size is 0. */
  function ScaleFactor(high: nat, normal: nat): (s: real)
    ensures s >= 0.0
    ensures normal == 0 ==> s == FallbackScale
    ensures normal > 0 ==> s * normal as real == high as real
  {
    if normal > 0 then high as real / normal as real else FallbackScale
  }

  /** `int(c * s)`. */
  function ScaleCoordinate(c: int, s: real): int {
    Trunc(c as real * s)
  }

  function ScaleArea(a: SelectedArea, sx: real, sy: real): Box {
    var c := Coordinates(a);
    Box(ScaleCoordinate(c.x1, sx), ScaleCoordinate(c.y1, sy), ScaleCoordinate(c.x2, sx), ScaleCoordinate(c.y2, sy))
  }

  lemma TruncMonotone(x: real, y: real)
    requires x <= y
    ensures Trunc(x) <= Trunc(y)
  {
  }

  lemma MulMonotone(x: real, y: real, s: real)
    requires x <= y && s >= 0.0
    ensures x * s <= y * s
  {
    assert y * s - x * s == (y - x) * s;
  }

  /** Truncating a non-negative product stays within one unit below it. */
  lemma TruncNonNegative(c: int, s: real)
    requires c >= 0 && s >= 0.0
    ensures 0 <= ScaleCoordinate(c, s) && c as real * s - 1.0 < ScaleCoordinate(c, s) as real <= c as real * s
  {
  }

  /** One axis of a rescaling by `s` taking `c1`, `c2` to `b1`, `b2`: order kept, non-negative coordinates
      kept non-negative, and the fallback factor tripling exactly. */
  predicate AxisScaled(c1: int, c2: int, b1: int, b2: int, s: real) {
    && (c1 <= c2 ==> b1 <= b2)
    && (c1 >= 0 ==> 0 <= b1)
    && (s == FallbackScale ==> b1 == 3 * c1 && b2 == 3 * c2)
  }

  lemma ScaleAxis(c1: int, c2: int, s: real)
    requires s >= 0.0
    ensures AxisScaled(c1, c2, ScaleCoordinate(c1, s), ScaleCoordinate(c2, s), s)
  {
    if c1 <= c2 {
      MulMonotone(c1 as real, c2 as real, s);
      TruncMonotone(c1 as real * s, c2 as real * s);
    }
    if c1 >= 0 {
      TruncNonNegative(c1, s);
    }
    if s == FallbackScale {
      TruncTriple(c1);
      TruncTriple(c2);
    }
  }

  /** Rescaling by non-negative factors (which `ScaleFactor` always gives) keeps x1 <= x2 and y1 <= y2 and
      non-negative coordinates non-negative, and with the fallback factor triples every coordinate exactly;
      each coordinate is within one unit below its exact product by `TruncNonNegative`. */
  lemma ScaleAreaSpec(a: SelectedArea, sx: real, sy: real)
    requires sx >= 0.0 && sy >= 0.0
    ensures AxisScaled(Coordinates(a).x1, Coordinates(a).x2, ScaleArea(a, sx, sy).x1, ScaleArea(a, sx, sy).x2, sx)
    ensures AxisScaled(Coordinates(a).y1, Coordinates(a).y2, ScaleArea(a, sx, sy).y1, ScaleArea(a, sx, sy).y2, sy)
  {
    var c := Coordinates(a);
    ScaleAxis(c.x1, c.x2, sx);
    ScaleAxis(c.y1, c.y2, sy);
  }

  lemma TruncTriple(c: int)
    ensures ScaleCoordinate(c, FallbackScale) == 3 * c
  {
    assert c as real * FallbackScale == (3 * c) as real;
  }

  /** What recognition returned for one rescaled area; `AreaFailed` is an error confined to that area. */
  datatype AreaReading = AreaFailed | AreaRead(text: string, confidence: real, wordCount: int)

  /** The record kept for an area that returned text: its number, its original coordinates, its text. */
  datatype AreaData = AreaData(areaNumber: nat, coordinates: Box, text: string, confidence: real, wordCount: int, dpi: int)

  function AreaLabel(number: nat, text: string): string {
    "[Область " + NatToString(number) + "]: " + text
  }

  predicate ReadsText(r: AreaReading) { r.AreaRead? && r.text != "" }

  /** The labels and records of the areas among the first `n` whose reading has text. */
  function ReadAreas(areas: seq<SelectedArea>, readings: seq<AreaReading>, n: nat): (r: (seq<string>, seq<AreaData>))
    requires n <= |areas| == |readings|
    ensures |r.0| == |r.1|
  {
    if n == 0 then ([], [])
    else
      var prev := ReadAreas(areas, readings, n - 1);
      var rd := readings[n - 1];
      if ReadsText(rd) then
        (prev.0 + [AreaLabel(n, rd.text)],
         prev.1 + [AreaData(n, Coordinates(areas[n - 1]), rd.text, rd.confidence, rd.wordCount, HighDpi)])
      else prev
  }

  /** `d` records area `d.areaNumber` (counted from 1), which returned text, with its original coordinates. */
  predicate Kept(areas: seq<SelectedArea>, readings: seq<AreaReading>, d: AreaData)
    requires |areas| == |readings|
  {
    && 1 <= d.areaNumber <= |readings|
    && ReadsText(readings[d.areaNumber - 1])
    && d.text == readings[d.areaNumber - 1].text
    && d.coordinates == Coordinates(areas[d.areaNumber - 1])
    && d.dpi == HighDpi
  }

  /** The kept areas returned text, are numbered from 1 in area order up to `n`, keep their original
      (unscaled) coordinates, and are labelled with their numbers. */
  ghost predicate AreasSound(areas: seq<SelectedArea>, readings: seq<AreaReading>, labels: seq<string>, data: seq<AreaData>, n: nat)
    requires |areas| == |readings| && |labels| == |data|
  {
    && (forall k :: 0 <= k < |data| ==> Kept(areas, readings, data[k]) && data[k].areaNumber <= n)
    && (forall k :: 0 <= k < |data| ==> labels[k] == AreaLabel(data[k].areaNumber, data[k].text))
    && (forall k, l :: 0 <= k < l < |data| ==> data[k].areaNumber < data[l].areaNumber)
  }

  lemma {:induction false} ReadAreasSound(areas: seq<SelectedArea>, readings: seq<AreaReading>, n: nat)
    requires n <= |areas| == |readings|
    ensures AreasSound(areas, readings, ReadAreas(areas, readings, n).0, ReadAreas(areas, readings, n).1, n)
  {
    if n > 0 {
      ReadAreasSound(areas, readings, n - 1);
    }
  }

  /** Every area among the first `n` that returned text has a record. */
  ghost predicate AreasCovered(readings: seq<AreaReading>, data: seq<AreaData>, n: nat)
    requires n <= |readings|
  {
    forall i :: 0 <= i < n && ReadsText(readings[i]) ==> exists k :: 0 <= k < |data| && data[k].areaNumber == i + 1
  }

  /** Every area that returned text is kept. */
  lemma {:induction false} ReadAreasComplete(areas: seq<SelectedArea>, readings: seq<AreaReading>, n: nat)
    requires n <= |areas| == |readings|
    ensures AreasCovered(readings, ReadAreas(areas, readings, n).1, n)
  {
    if n > 0 {
      ReadAreasComplete(areas, readings, n - 1);
      var prev := ReadAreas(areas, readings, n - 1).1;
      var data := ReadAreas(areas, readings, n).1;
      var rd := readings[n - 1];
      if ReadsText(rd) {
        assert data == prev + [AreaData(n, Coordinates(areas[n - 1]), rd.text, rd.confidence, rd.wordCount, HighDpi)];
      } else {
        assert data == prev;
      }
      forall i | 0 <= i < n && ReadsText(readings[i])
        ensures exists k :: 0 <= k < |data| && data[k].areaNumber == i + 1
      {
        if i < n - 1 {
          var k :| 0 <= k < |prev| && prev[k].areaNumber == i + 1;
          assert data[k] == prev[k];
        } else {
          assert data[|data| - 1].areaNumber == n;
        }
      }
    }
  }

  /** The block of area texts placed before the main text, empty when no area returned text. */
  function AreasBlock(labels: seq<string>): string {
    if labels != [] then AreasHeader + Join(AreaSeparator, labels) else ""
  }

  /** `raw_text` after step 2.5: the area block, the main-text marker, then the main text. */
  function WithSelectedAreas(block: string, main: string): string {
    if block != "" then block + MainTextMarker + main else main
  }

  /** The main text always ends the raw text; an area block, when present, begins it and is followed by the
      main-text marker. */
  lemma WithSelectedAreasSpec(block: string, main: string)
    ensures var r := WithSelectedAreas(block, main);
      && |main| <= |r| && r[|r| - |main|..] == main
      && (block == "" ==> r == main)
      && (block != "" ==> r[..|block|] == block && r[|block|..|block| + |MainTextMarker|] == MainTextMarker)
  {
    var r := WithSelectedAreas(block, main);
    if block != "" {
      assert r == (block + MainTextMarker) + main;
    }
  }

  /** A call of `load_image`. The engine's signature takes a path and an optional page only, so a call that
      passes `dpi` fails with a TypeError before anything is loaded. */
  datatype LoadCall = LoadCall(page: Option<int>, dpi: Option<int>)

  predicate Accepted(c: LoadCall) { c.dpi.None? }

  /** The selected-area step once the image load has either succeeded or failed: a failed load is caught and
      processing continues without any area. */
  function SelectedAreasAfterLoad(loaded: bool, areas: seq<SelectedArea>, readings: seq<AreaReading>): (string, seq<AreaData>)
    requires |areas| == |readings|
  {
    if areas == [] || !loaded then ("", [])
    else
      var (labels, data) := ReadAreas(areas, readings, |areas|);
      (AreasBlock(labels), data)
  }

  /** The selected-area step as written: its first load passes `dpi=900`. */
  function SelectedAreasAsWritten(isPdf: bool, areas: seq<SelectedArea>, readings: seq<AreaReading>): (string, seq<AreaData>)
    requires |areas| == |readings|
  {
    SelectedAreasAfterLoad(Accepted(LoadCall(if isPdf then Some(1) else None, Some(HighDpi))), areas, readings)
  }

  /** As written, selected areas never reach the text, whatever they are and whatever recognition reads. */
  lemma SelectedAreasIgnoredAsWritten(isPdf: bool, areas: seq<SelectedArea>, readings: seq<AreaReading>, main: string)
    requires |areas| == |readings|
    ensures SelectedAreasAsWritten(isPdf, areas, readings) == ("", [])
    ensures WithSelectedAreas(SelectedAreasAsWritten(isPdf, areas, readings).0, main) == main
  {
  }

  /** The selected-area step as intended: each area is read from the 900 DPI image and every area that
      returned text is labelled, in order. */
  method ProcessSelectedAreas(areas: seq<SelectedArea>, readings: seq<AreaReading>) returns (block: string, data: seq<AreaData>)
    requires |areas| == |readings|
    ensures (block, data) == SelectedAreasAfterLoad(true, areas, readings)
    ensures block != "" <==> exists i :: 0 <= i < |readings| && ReadsText(readings[i])
  {
    var labels: seq<string> := [];
    data := [];
    for i := 0 to |areas|
      invariant (labels, data) == ReadAreas(areas, readings, i)
    {
      var rd := readings[i];
      if rd.AreaRead? && rd.text != "" {
        labels := labels + [AreaLabel(i + 1, rd.text)];
        data := data + [AreaData(i + 1, Coordinates(areas[i]), rd.text, rd.confidence, rd.wordCount, HighDpi)];
      }
    }
    block := AreasBlock(labels);
    ReadAreasSound(areas, readings, |areas|);
    ReadAreasComplete(areas, readings, |areas|);
    if exists i :: 0 <= i < |readings| && ReadsText(readings[i]) {
      var i :| 0 <= i < |readings| && ReadsText(readings[i]);
      assert |data| > 0;
    }
  }

  // ---------------------------------------------------------------- pages

  /** One page as the engine returns it; a missing page number reads as 1 and a missing word count as 0. */
  datatype PageResult = PageResult(text: string, confidence: real, pageNumber: Option<int>, wordCount: Option<int>)

  datatype PageInfo = PageInfo(pageNumber: int, text: string, confidence: real, wordCount: int)

  function InfoOf(p: PageResult): PageInfo {
    PageInfo(if p.pageNumber.Some? then p.pageNumber.value else 1, p.text, p.confidence,
             if p.wordCount.Some? then p.wordCount.value else 0)
  }

  function SumReals(xs: seq<real>): real {
    if xs == [] then 0.0 else SumReals(xs[..|xs| - 1]) + xs[|xs| - 1]
  }

  /** `sum(xs) / len(xs) if xs else 0.0`. */
  function Mean(xs: seq<real>): real {
    if xs == [] then 0.0 else SumReals(xs) / |xs| as real
  }

  lemma {:induction false} SumBounds(xs: seq<real>, lo: real, hi: real)
    requires forall i :: 0 <= i < |xs| ==> lo <= xs[i] <= hi
    ensures |xs| as real * lo <= SumReals(xs) <= |xs| as real * hi
  {
    if xs != [] {
      SumBounds(xs[..|xs| - 1], lo, hi);
    }
  }

  /** The mean of values within [lo, hi] is within [lo, hi]; so page confidences in [0, 1] give a document
      confidence in [0, 1]. */
  lemma MeanBounds(xs: seq<real>, lo: real, hi: real)
    requires xs != []
    requires forall i :: 0 <= i < |xs| ==> lo <= xs[i] <= hi
    ensures lo <= Mean(xs) <= hi
  {
    SumBounds(xs, lo, hi);
    var n := |xs| as real;
    assert Mean(xs) * n == SumReals(xs);
  }

  function PageTexts(pages: seq<PageResult>): seq<string> {
    seq(|pages|, i requires 0 <= i < |pages| => pages[i].text)
  }

  function PageConfidences(pages: seq<PageResult>): seq<real> {
    seq(|pages|, i requires 0 <= i < |pages| => pages[i].confidence)
  }

  function WordTotal(pages: seq<PageResult>): int {
    if pages == [] then 0 else WordTotal(pages[..|pages| - 1]) + InfoOf(pages[|pages| - 1]).wordCount
  }

  /** The PDF branch: page texts joined by the page separator, the mean page confidence, one page record per
      page and the total word count. */
  method CombinePages(pages: seq<PageResult>) returns (raw: string, confidence: real, infos: seq<PageInfo>, words: int)
    ensures raw == Join(PageSeparator, PageTexts(pages))
    ensures confidence == Mean(PageConfidences(pages))
    ensures pages == [] ==> raw == "" && confidence == 0.0
    ensures |infos| == |pages| && forall i :: 0 <= i < |pages| ==> infos[i] == InfoOf(pages[i])
    ensures words == WordTotal(pages)
  {
    var texts: seq<string> := [];
    var confidences: seq<real> := [];
    infos := [];
    words := 0;
    for i := 0 to |pages|
      invariant texts == PageTexts(pages[..i]) && confidences == PageConfidences(pages[..i])
      invariant |infos| == i && forall k :: 0 <= k < i ==> infos[k] == InfoOf(pages[k])
      invariant words == WordTotal(pages[..i])
    {
      assert pages[..i + 1][..i] == pages[..i];
      texts := texts + [pages[i].text];
      confidences := confidences + [pages[i].confidence];
      infos := infos + [InfoOf(pages[i])];
      words := words + InfoOf(pages[i]).wordCount;
    }
    assert pages[..|pages|] == pages;
    raw := Join(PageSeparator, texts);
    confidence := if |confidences| > 0 then SumReals(confidences) / |confidences| as real else 0.0;
  }

  // ---------------------------------------------------------------- one document

  /** What recognition, correction, validation and the image measurements produced for one file; the
      pipeline's own decisions start from here. */
  datatype Recognition =
    | RecognitionFailed(error: string)
    | Recognized(documentId: string, rawText: string, correctedText: string, corrections: seq<AppliedCorrection>,
                 metrics: ImageMetrics, ocr: OcrData, validation: map<string, ValidationResult>)

  datatype ProcessedDocument = ProcessedDocument(
    documentId: string, rawText: string, fullText: string, corrections: seq<AppliedCorrection>,
    quality: QualityReport, validation: map<string, ValidationResult>, needsReview: bool)

  datatype ProcessOutcome = Failure(error: string) | Success(doc: ProcessedDocument)

  predicate AnyInvalid(v: map<string, ValidationResult>) {
    exists n :: n in v && !v[n].valid
  }

  /** `process` as intended, from its recognition onwards. */
  function Process(r: Recognition): ProcessOutcome {
    match r
    case RecognitionFailed(e) => Failure(e)
    case Recognized(id, raw, corrected, corrections, m, ocr, v) =>
      var report := CheckQuality(m, ocr);
      Success(ProcessedDocument(id, raw, corrected, corrections, report, v, report.needsReview || AnyInvalid(v)))
  }

  /** `process` as written: once correction and validation are done, and before the result is built or any
      implicit feedback is collected, it calls `extract_important_data`, which the validator does not define; the
      AttributeError is re-raised. */
  function ProcessAsWritten(r: Recognition): ProcessOutcome {
    match r
    case RecognitionFailed(e) => Failure(e)
    case Recognized(_, _, _, _, _, _, _) => Failure(MissingAttribute)
  }

  /** A document needs review when any handwritten area is found or any field is invalid; one that does not
      need review has a composite score of at least 0.7, no quality issue and only valid fields. */
  lemma DocumentReviewSpec(r: Recognition)
    requires r.Recognized?
    ensures Process(r).Success?
    ensures var d := Process(r).doc;
      && (d.needsReview <==> d.quality.needsReview || AnyInvalid(d.validation))
      && (d.quality.handwritten != [] ==> d.needsReview)
      && (!d.needsReview ==> d.quality.overall >= 0.7 && d.quality.issues == []
                             && forall n :: n in d.validation ==> d.validation[n].valid)
      && d.quality == CheckQuality(r.metrics, r.ocr)
  {
  }

  // ---------------------------------------------------------------- implicit feedback

  /** The applied corrections that are forwarded: all but the transformer's. */
  function Forwarded(cs: seq<AppliedCorrection>): (r: seq<AppliedCorrection>)
    ensures |r| <= |cs|
    ensures forall c :: c in r <==> c in cs && c.how != MlTransformer
  {
    if cs == [] then []
    else
      var prev := Forwarded(cs[..|cs| - 1]);
      var c := cs[|cs| - 1];
      assert forall x :: x in cs <==> x in cs[..|cs| - 1] || x == c;
      if c.how != MlTransformer then prev + [c] else prev
  }

  /** `recs` are the records made for the forwarded corrections `fw`, one each and in order: same original and
      corrected text and confidence, the document's id and context, no user, not yet applied. */
  ghost predicate RecordsFor(recs: seq<CorrectionRecord>, fw: seq<AppliedCorrection>, documentId: string,
                             context: string) {
    && |recs| == |fw|
    && forall k :: 0 <= k < |fw| ==>
         && recs[k].original == fw[k].from && recs[k].corrected == fw[k].to && recs[k].documentId == documentId
         && recs[k].context == Some(context) && recs[k].confidence == fw[k].confidence
         && recs[k].userId.None? && !recs[k].applied
  }

  lemma RecordsForStep(recs: seq<CorrectionRecord>, fw: seq<AppliedCorrection>, documentId: string, context: string,
                       r: CorrectionRecord, c: AppliedCorrection)
    requires RecordsFor(recs, fw, documentId, context)
    requires r.original == c.from && r.corrected == c.to && r.documentId == documentId
    requires r.context == Some(context) && r.confidence == c.confidence && r.userId.None? && !r.applied
    ensures RecordsFor(recs + [r], fw + [c], documentId, context)
  {
  }

  /** Step 6.5 as intended: one correction record per forwarded correction, with the first 200 characters of the
      corrected text as context; earlier records are untouched. As written, `process` raises before it reaches this
      step (see `ProcessDocumentAsWritten`). */
  method ForwardImplicitFeedback(store: FeedbackStore, documentId: string, correctedText: string,
                                 applied: seq<AppliedCorrection>, now: Instant)
    requires store.Valid()
    modifies store
    ensures store.Valid()
    ensures |store.corrections| >= |old(store.corrections)|
    ensures store.corrections[..|old(store.corrections)|] == old(store.corrections)
    ensures RecordsFor(store.corrections[|old(store.corrections)|..], Forwarded(applied), documentId,
                       Prefix(correctedText, ContextLimit))
    ensures store.totalFeedback == old(store.totalFeedback) + |Forwarded(applied)|
    ensures store.correctionsCount == old(store.correctionsCount) + |Forwarded(applied)|
    ensures store.documentTypes == old(store.documentTypes) && store.qualityRatings == old(store.qualityRatings)
  {
    var context := Prefix(correctedText, ContextLimit);
    ghost var before := store.corrections;
    ghost var added: seq<CorrectionRecord> := [];
    for i := 0 to |applied|
      invariant store.Valid()
      invariant store.corrections == before + added
      invariant RecordsFor(added, Forwarded(applied[..i]), documentId, context)
      invariant store.totalFeedback == old(store.totalFeedback) + |Forwarded(applied[..i])|
      invariant store.correctionsCount == old(store.correctionsCount) + |Forwarded(applied[..i])|
      invariant store.documentTypes == old(store.documentTypes) && store.qualityRatings == old(store.qualityRatings)
    {
      assert applied[..i + 1][..i] == applied[..i];
      var c := applied[i];
      ghost var fw := Forwarded(applied[..i]);
      if c.how != MlTransformer {
        assert Forwarded(applied[..i + 1]) == fw + [c];
        var id := store.AddCorrectionFeedback(c.from, c.to, documentId, Some(context), None, c.confidence, now);
        ghost var r := CorrectionRecord(id, c.from, c.to, documentId, Some(context), None, c.confidence, now.iso, false, None);
        RecordsForStep(added, fw, documentId, context, r, c);
        added := added + [r];
      } else {
        assert Forwarded(applied[..i + 1]) == fw;
      }
    }
    assert applied[..|applied|] == applied;
    assert store.corrections[..|before|] == before && store.corrections[|before|..] == added;
  }

  /** One call of `process` seen from outside: its outcome and the applied corrections it forwards to the
      feedback collector at step 6.5. */
  datatype Run = Run(outcome: ProcessOutcome, forwarded: seq<AppliedCorrection>)

  /** `process` as intended: a recognized document is returned and, when active learning is on, its applied
      corrections are forwarded. */
  function RunProcess(r: Recognition, activeLearning: bool): Run {
    match r
    case RecognitionFailed(e) => Run(Failure(e), [])
    case Recognized(_, _, _, cs, _, _, _) => Run(Process(r), if activeLearning then Forwarded(cs) else [])
  }

  /** `process` as written: a recognized document raises at step 5.6, so step 6.5 is never reached. */
  function RunProcessAsWritten(r: Recognition, activeLearning: bool): Run {
    match r
    case RecognitionFailed(e) => Run(Failure(e), [])
    case Recognized(_, _, _, _, _, _, _) => Run(ProcessAsWritten(r), [])
  }

  /** As written, no call of `process` forwards implicit feedback and none succeeds; as intended, a recognized
      document succeeds and, with active learning on, forwards nothing only when every applied correction came
      from the transformer. */
  lemma ImplicitFeedbackLostAsWritten(r: Recognition, activeLearning: bool)
    ensures RunProcessAsWritten(r, activeLearning).forwarded == []
    ensures RunProcessAsWritten(r, activeLearning).outcome.Failure?
    ensures r.Recognized? ==> RunProcess(r, activeLearning).outcome.Success?
    ensures RunProcess(r, activeLearning).forwarded == [] <==>
              r.RecognitionFailed? || !activeLearning || forall c :: c in r.corrections ==> c.how == MlTransformer
  {
    if r.Recognized? && activeLearning && RunProcess(r, activeLearning).forwarded != [] {
      var fw := RunProcess(r, activeLearning).forwarded;
      assert fw[0] in Forwarded(r.corrections);
    }
  }

  /** `process` as intended, with its effect on the feedback store: the records of step 6.5 are appended and
      nothing else in the store changes. */
  method ProcessDocument(store: FeedbackStore, r: Recognition, activeLearning: bool, now: Instant)
    returns (o: ProcessOutcome)
    requires store.Valid()
    modifies store
    ensures store.Valid()
    ensures o == RunProcess(r, activeLearning).outcome
    ensures |store.corrections| == |old(store.corrections)| + |RunProcess(r, activeLearning).forwarded|
    ensures store.corrections[..|old(store.corrections)|] == old(store.corrections)
    ensures r.Recognized? ==> RecordsFor(store.corrections[|old(store.corrections)|..],
                                         RunProcess(r, activeLearning).forwarded, r.documentId,
                                         Prefix(r.correctedText, ContextLimit))
    ensures store.totalFeedback == old(store.totalFeedback) + |RunProcess(r, activeLearning).forwarded|
    ensures store.documentTypes == old(store.documentTypes) && store.qualityRatings == old(store.qualityRatings)
  {
    o := Process(r);
    if r.Recognized? && activeLearning {
      ForwardImplicitFeedback(store, r.documentId, r.correctedText, r.corrections, now);
    }
  }

  /** `process` as written, with its effect on the feedback store: a recognized document raises before step 6.5,
      so the store is left exactly as it was. */
  method ProcessDocumentAsWritten(store: FeedbackStore, r: Recognition, activeLearning: bool, now: Instant)
    returns (o: ProcessOutcome)
    requires store.Valid()
    modifies store
    ensures store.Valid()
    ensures o == RunProcessAsWritten(r, activeLearning).outcome
    ensures |store.corrections| == |old(store.corrections)| + |RunProcessAsWritten(r, activeLearning).forwarded|
    ensures store.corrections[..|old(store.corrections)|] == old(store.corrections)
    ensures store.totalFeedback == old(store.totalFeedback) + |RunProcessAsWritten(r, activeLearning).forwarded|
    ensures store.documentTypes == old(store.documentTypes) && store.qualityRatings == old(store.qualityRatings)
  {
    match r
    case RecognitionFailed(e) =>
      o := Failure(e);
    case Recognized(_, _, _, _, _, _, _) =>
      o := Failure(MissingAttribute);
  }

  // ---------------------------------------------------------------- batches

  /** One entry of a batch: the processed document, or the failure record for its file. */
  datatype BatchEntry = Processed(doc: ProcessedDocument) | Errored(filePath: string, error: string)

  /** A collected correction and the file it came from. */
  datatype Mined = Mined(file: string, correction: AppliedCorrection)

  datatype NewSuggestion = NewSuggestion(from: string, to: string, confidence: real, occurrences: nat)

  datatype BatchReport = BatchReport(
    documents: seq<BatchEntry>, suggestions: seq<NewSuggestion>, needsHumanReview: bool,
    totalProcessed: nat, successful: nat)

  function EntryOf(path: string, o: ProcessOutcome): BatchEntry {
    match o
    case Failure(e) => Errored(path, e)
    case Success(d) => Processed(d)
  }

  /** The corrections below 0.8 among `cs`, tagged with their file. */
  function LowConfidence(path: string, cs: seq<AppliedCorrection>): seq<Mined> {
    if cs == [] then []
    else
      var c := cs[|cs| - 1];
      LowConfidence(path, cs[..|cs| - 1]) + (if c.confidence < MiningThreshold then [Mined(path, c)] else [])
  }

  /** Exactly the corrections below 0.8, tagged with their file. */
  lemma {:induction false} LowConfidenceSpec(path: string, cs: seq<AppliedCorrection>)
    ensures forall m :: m in LowConfidence(path, cs) <==>
      m.file == path && m.correction in cs && m.correction.confidence < MiningThreshold
  {
    if cs != [] {
      var c := cs[|cs| - 1];
      LowConfidenceSpec(path, cs[..|cs| - 1]);
      assert forall x :: x in cs <==> x in cs[..|cs| - 1] || x == c;
    }
  }

  /** What one file contributes to the mined corrections: only a processed document that needs review. */
  function MinedFrom(path: string, o: ProcessOutcome): seq<Mined> {
    if o.Success? && o.doc.needsReview then LowConfidence(path, o.doc.corrections) else []
  }

  function MinedAll(paths: seq<string>, outcomes: seq<ProcessOutcome>): seq<Mined>
    requires |paths| == |outcomes|
  {
    if paths == [] then []
    else MinedAll(paths[..|paths| - 1], outcomes[..|outcomes| - 1]) + MinedFrom(paths[|paths| - 1], outcomes[|outcomes| - 1])
  }

  /** `m` is a correction below 0.8 of the processed document `o`, read from `path`, which needs review. */
  ghost predicate MinedFromFile(m: Mined, path: string, o: ProcessOutcome) {
    && m.file == path && o.Success? && o.doc.needsReview
    && m.correction in o.doc.corrections && m.correction.confidence < MiningThreshold
  }

  lemma MinedFromSpec(path: string, o: ProcessOutcome)
    ensures forall m :: m in MinedFrom(path, o) <==> MinedFromFile(m, path, o)
  {
    if o.Success? && o.doc.needsReview {
      LowConfidenceSpec(path, o.doc.corrections);
    }
  }

  /** Only corrections below 0.8 from processed documents that need review are collected, and all of them. */
  lemma {:induction false} MinedAllSpec(paths: seq<string>, outcomes: seq<ProcessOutcome>)
    requires |paths| == |outcomes|
    ensures forall m :: m in MinedAll(paths, outcomes) <==>
      exists i :: 0 <= i < |paths| && MinedFromFile(m, paths[i], outcomes[i])
  {
    if paths != [] {
      var n := |paths| - 1;
      var ps, os := paths[..n], outcomes[..n];
      MinedAllSpec(ps, os);
      MinedFromSpec(paths[n], outcomes[n]);
      assert MinedAll(paths, outcomes) == MinedAll(ps, os) + MinedFrom(paths[n], outcomes[n]);
      forall m ensures m in MinedAll(paths, outcomes) <==> exists i :: 0 <= i < |paths| && MinedFromFile(m, paths[i], outcomes[i])
      {
        if m in MinedAll(ps, os) {
          var i :| 0 <= i < n && MinedFromFile(m, ps[i], os[i]);
          assert ps[i] == paths[i] && os[i] == outcomes[i];
        }
        if exists i :: 0 <= i < |paths| && MinedFromFile(m, paths[i], outcomes[i]) {
          var i :| 0 <= i < |paths| && MinedFromFile(m, paths[i], outcomes[i]);
          if i < n {
            assert ps[i] == paths[i] && os[i] == outcomes[i];
          }
        }
      }
    }
  }

  /** The replacements collected for one source text, in order. */
  function ReplacementsFor(ms: seq<Mined>, key: string): seq<string> {
    if ms == [] then []
    else
      var m := ms[|ms| - 1];
      ReplacementsFor(ms[..|ms| - 1], key) + (if m.correction.from == key then [m.correction.to] else [])
  }

  function FindKey(groups: seq<(string, seq<string>)>, key: string): (r: Option<nat>)
    ensures r.Some? ==> r.value < |groups| && groups[r.value].0 == key
    ensures r.None? ==> forall i :: 0 <= i < |groups| ==> groups[i].0 != key
  {
    if groups == [] then None
    else if groups[|groups| - 1].0 == key then Some(|groups| - 1)
    else FindKey(groups[..|groups| - 1], key)
  }

  /** One step of the grouping loop: append the replacement to its source text's group, or open a new group. */
  function AddToGroups(groups: seq<(string, seq<string>)>, m: Mined): seq<(string, seq<string>)> {
    match FindKey(groups, m.correction.from)
    case None => groups + [(m.correction.from, [m.correction.to])]
    case Some(i) => groups[i := (groups[i].0, groups[i].1 + [m.correction.to])]
  }

  /** `error_groups`: source text to its replacements, in first-seen order. */
  function ErrorGroups(ms: seq<Mined>): seq<(string, seq<string>)> {
    if ms == [] then [] else AddToGroups(ErrorGroups(ms[..|ms| - 1]), ms[|ms| - 1])
  }

  /** `ErrorGroups` holds one group per source text, with exactly its replacements. */
  ghost predicate GroupsExact(groups: seq<(string, seq<string>)>, ms: seq<Mined>) {
    && (forall i, j :: 0 <= i < j < |groups| ==> groups[i].0 != groups[j].0)
    && (forall i :: 0 <= i < |groups| ==> groups[i].1 == ReplacementsFor(ms, groups[i].0) != [])
    && (forall k :: ReplacementsFor(ms, k) != [] ==> FindKey(groups, k).Some?)
  }

  lemma ReplacementsSnoc(ms: seq<Mined>, m: Mined, k: string)
    ensures ReplacementsFor(ms + [m], k)
         == ReplacementsFor(ms, k) + (if m.correction.from == k then [m.correction.to] else [])
  {
    assert (ms + [m])[..|ms|] == ms;
  }

  lemma GroupsStepNew(groups: seq<(string, seq<string>)>, ms: seq<Mined>, m: Mined)
    requires GroupsExact(groups, ms)
    requires FindKey(groups, m.correction.from).None?
    ensures GroupsExact(groups + [(m.correction.from, [m.correction.to])], ms + [m])
  {
    var key := m.correction.from;
    var g2 := groups + [(key, [m.correction.to])];
    var ms2 := ms + [m];
    ReplacementsSnoc(ms, m, key);
    assert ReplacementsFor(ms, key) == [];
    forall i | 0 <= i < |g2| ensures g2[i].1 == ReplacementsFor(ms2, g2[i].0) != [] {
      ReplacementsSnoc(ms, m, g2[i].0);
    }
    forall k | ReplacementsFor(ms2, k) != [] ensures FindKey(g2, k).Some? {
      ReplacementsSnoc(ms, m, k);
      if k == key {
        assert g2[|g2| - 1].0 == k;
      } else {
        assert g2[FindKey(groups, k).value].0 == k;
      }
    }
  }

  lemma GroupsStepOld(groups: seq<(string, seq<string>)>, ms: seq<Mined>, m: Mined, i: nat)
    requires GroupsExact(groups, ms)
    requires FindKey(groups, m.correction.from) == Some(i)
    ensures GroupsExact(groups[i := (groups[i].0, groups[i].1 + [m.correction.to])], ms + [m])
  {
    var g2 := groups[i := (groups[i].0, groups[i].1 + [m.correction.to])];
    var ms2 := ms + [m];
    forall j | 0 <= j < |g2| ensures g2[j].1 == ReplacementsFor(ms2, g2[j].0) != [] {
      ReplacementsSnoc(ms, m, g2[j].0);
    }
    forall k | ReplacementsFor(ms2, k) != [] ensures FindKey(g2, k).Some? {
      ReplacementsSnoc(ms, m, k);
      assert g2[FindKey(groups, k).value].0 == k;
    }
  }

  lemma ErrorGroupsStep(groups: seq<(string, seq<string>)>, ms: seq<Mined>, m: Mined)
    requires GroupsExact(groups, ms)
    ensures GroupsExact(AddToGroups(groups, m), ms + [m])
  {
    match FindKey(groups, m.correction.from)
    case None => GroupsStepNew(groups, ms, m);
    case Some(i) => GroupsStepOld(groups, ms, m, i);
  }

  lemma {:induction false} ErrorGroupsExact(ms: seq<Mined>)
    ensures GroupsExact(ErrorGroups(ms), ms)
  {
    if ms != [] {
      var init := ms[..|ms| - 1];
      ErrorGroupsExact(init);
      ErrorGroupsStep(ErrorGroups(init), init, ms[|ms| - 1]);
      assert init + [ms[|ms| - 1]] == ms;
    }
  }

  /** `len(set(corrections)) == 1`: a non-empty list whose entries all agree. */
  predicate Unanimous(xs: seq<string>) {
    xs != [] && forall i :: 0 <= i < |xs| ==> xs[i] == xs[0]
  }

  /** The suggestion made from a group: its one replacement, confidence 0.7 and the number collected. */
  function SuggestionOf(g: (string, seq<string>)): NewSuggestion
    requires g.1 != []
  {
    NewSuggestion(g.0, g.1[0], SuggestionConfidence, |g.1|)
  }

  /** The suggestions made from the unanimous groups, in group order. */
  function SuggestionsFrom(groups: seq<(string, seq<string>)>): seq<NewSuggestion> {
    if groups == [] then []
    else
      var g := groups[|groups| - 1];
      SuggestionsFrom(groups[..|groups| - 1]) + (if Unanimous(g.1) then [SuggestionOf(g)] else [])
  }

  /** Exactly the unanimous groups yield a suggestion. */
  lemma {:induction false} SuggestionsFromSpec(groups: seq<(string, seq<string>)>)
    ensures forall s :: s in SuggestionsFrom(groups) <==>
      exists i :: 0 <= i < |groups| && Unanimous(groups[i].1) && s == SuggestionOf(groups[i])
  {
    if groups != [] {
      var n := |groups| - 1;
      var init := groups[..n];
      SuggestionsFromSpec(init);
      forall s ensures s in SuggestionsFrom(groups) <==>
        exists i :: 0 <= i < |groups| && Unanimous(groups[i].1) && s == SuggestionOf(groups[i])
      {
        if s in SuggestionsFrom(init) {
          var i :| 0 <= i < n && Unanimous(init[i].1) && s == SuggestionOf(init[i]);
          assert init[i] == groups[i];
        }
        if exists i :: 0 <= i < |groups| && Unanimous(groups[i].1) && s == SuggestionOf(groups[i]) {
          var i :| 0 <= i < |groups| && Unanimous(groups[i].1) && s == SuggestionOf(groups[i]);
          if i < n {
            assert init[i] == groups[i];
          }
        }
      }
    }
  }

  /** The batch summary as a value. */
  function Batch(paths: seq<string>, outcomes: seq<ProcessOutcome>): BatchReport
    requires |paths| == |outcomes|
  {
    var docs := seq(|paths|, i requires 0 <= i < |paths| => EntryOf(paths[i], outcomes[i]));
    var suggestions := SuggestionsFrom(ErrorGroups(MinedAll(paths, outcomes)));
    BatchReport(docs, suggestions, |suggestions| > 0, |docs|, CountSuccess(outcomes))
  }

  function CountSuccess(outcomes: seq<ProcessOutcome>): (n: nat)
    ensures n <= |outcomes|
  {
    if outcomes == [] then 0
    else CountSuccess(outcomes[..|outcomes| - 1]) + (if outcomes[|outcomes| - 1].Success? then 1 else 0)
  }

  /** Distinct group keys give suggestions for distinct source texts. */
  lemma {:induction false} SuggestionsDistinct(groups: seq<(string, seq<string>)>)
    requires forall i, j :: 0 <= i < j < |groups| ==> groups[i].0 != groups[j].0
    ensures forall i, j :: 0 <= i < j < |SuggestionsFrom(groups)| ==> SuggestionsFrom(groups)[i].from != SuggestionsFrom(groups)[j].from
  {
    if groups != [] {
      var n := |groups| - 1;
      var init := groups[..n];
      SuggestionsDistinct(init);
      SuggestionsFromSpec(init);
      var prev := SuggestionsFrom(init);
      forall k | 0 <= k < |prev| ensures prev[k].from != groups[n].0 {
        assert prev[k] in prev;
        var i :| 0 <= i < n && Unanimous(init[i].1) && prev[k] == SuggestionOf(init[i]);
        assert init[i] == groups[i];
      }
    }
  }

  /** A suggestion is made for a source text exactly when every replacement collected for it agrees; it
      carries that replacement, confidence 0.7 and the number collected; no source text is suggested twice. */
  lemma SuggestionsSpec(ms: seq<Mined>)
    ensures forall s :: s in SuggestionsFrom(ErrorGroups(ms)) ==>
      Unanimous(ReplacementsFor(ms, s.from)) && s == SuggestionOf((s.from, ReplacementsFor(ms, s.from)))
    ensures forall k :: Unanimous(ReplacementsFor(ms, k)) ==>
      SuggestionOf((k, ReplacementsFor(ms, k))) in SuggestionsFrom(ErrorGroups(ms))
    ensures forall i, j :: 0 <= i < j < |SuggestionsFrom(ErrorGroups(ms))| ==>
      SuggestionsFrom(ErrorGroups(ms))[i].from != SuggestionsFrom(ErrorGroups(ms))[j].from
  {
    var groups := ErrorGroups(ms);
    ErrorGroupsExact(ms);
    SuggestionsFromSpec(groups);
    SuggestionsDistinct(groups);
    forall k | Unanimous(ReplacementsFor(ms, k)) ensures SuggestionOf((k, ReplacementsFor(ms, k))) in SuggestionsFrom(groups) {
      var i := FindKey(groups, k).value;
      assert groups[i] == (k, ReplacementsFor(ms, k));
    }
  }

  /** Batch processing as written: every document fails, so nothing counts as successful and no suggestion
      can be mined, whatever the files contain. */
  lemma BatchAsWrittenNeverSucceeds(paths: seq<string>, recognitions: seq<Recognition>)
    requires |paths| == |recognitions|
    ensures var outcomes := seq(|recognitions|, i requires 0 <= i < |recognitions| => ProcessAsWritten(recognitions[i]));
      var r := Batch(paths, outcomes);
      r.successful == 0 && r.suggestions == [] && !r.needsHumanReview && r.totalProcessed == |paths|
  {
    var outcomes := seq(|recognitions|, i requires 0 <= i < |recognitions| => ProcessAsWritten(recognitions[i]));
    NoSuccessNoCount(outcomes);
    NoSuccessNothingMined(paths, outcomes);
  }

  lemma {:induction false} NoSuccessNoCount(outcomes: seq<ProcessOutcome>)
    requires forall i :: 0 <= i < |outcomes| ==> outcomes[i].Failure?
    ensures CountSuccess(outcomes) == 0
  {
    if outcomes != [] {
      NoSuccessNoCount(outcomes[..|outcomes| - 1]);
    }
  }

  lemma {:induction false} NoSuccessNothingMined(paths: seq<string>, outcomes: seq<ProcessOutcome>)
    requires |paths| == |outcomes|
    requires forall i :: 0 <= i < |outcomes| ==> outcomes[i].Failure?
    ensures MinedAll(paths, outcomes) == []
  {
    if paths != [] {
      NoSuccessNothingMined(paths[..|paths| - 1], outcomes[..|outcomes| - 1]);
    }
  }

  function CountRecognized(rs: seq<Recognition>): nat {
    if rs == [] then 0 else CountRecognized(rs[..|rs| - 1]) + (if rs[|rs| - 1].Recognized? then 1 else 0)
  }

  /** Batch processing as intended: a file counts as successful exactly when it was recognized. */
  lemma {:induction false} BatchSucceedsOnRecognized(rs: seq<Recognition>)
    ensures CountSuccess(seq(|rs|, i requires 0 <= i < |rs| => Process(rs[i]))) == CountRecognized(rs)
  {
    if rs != [] {
      var init := rs[..|rs| - 1];
      BatchSucceedsOnRecognized(init);
      var outcomes := seq(|rs|, i requires 0 <= i < |rs| => Process(rs[i]));
      assert outcomes[..|rs| - 1] == seq(|init|, i requires 0 <= i < |init| => Process(init[i]));
    }
  }

  /** The inner mining loop for one document. */
  method PickLowConfidence(path: string, cs: seq<AppliedCorrection>) returns (picked: seq<Mined>)
    ensures picked == LowConfidence(path, cs)
  {
    picked := [];
    for j := 0 to |cs|
      invariant picked == LowConfidence(path, cs[..j])
    {
      assert cs[..j + 1][..j] == cs[..j];
      if cs[j].confidence < MiningThreshold {
        picked := picked + [Mined(path, cs[j])];
      }
    }
    assert cs[..|cs|] == cs;
  }

  /** The grouping loop of `batch_process`. */
  method GroupErrors(unknown: seq<Mined>) returns (groups: seq<(string, seq<string>)>)
    ensures groups == ErrorGroups(unknown)
  {
    groups := [];
    for i := 0 to |unknown|
      invariant groups == ErrorGroups(unknown[..i])
    {
      assert unknown[..i + 1][..i] == unknown[..i];
      var m := unknown[i];
      var k := FindKey(groups, m.correction.from);
      if k.None? {
        groups := groups + [(m.correction.from, [m.correction.to])];
      } else {
        groups := groups[k.value := (groups[k.value].0, groups[k.value].1 + [m.correction.to])];
      }
    }
    assert unknown[..|unknown|] == unknown;
  }

  /** The suggestion loop of `batch_process`. */
  method Suggest(groups: seq<(string, seq<string>)>) returns (suggestions: seq<NewSuggestion>)
    ensures suggestions == SuggestionsFrom(groups)
  {
    suggestions := [];
    for i := 0 to |groups|
      invariant suggestions == SuggestionsFrom(groups[..i])
    {
      assert groups[..i + 1][..i] == groups[..i];
      if Unanimous(groups[i].1) {
        suggestions := suggestions + [SuggestionOf(groups[i])];
      }
    }
    assert groups[..|groups|] == groups;
  }

  /** One pass of the loop of `batch_process`: the file's entry, what it contributes to the mined
      corrections, and 1 when it was processed. */
  method CollectOne(path: string, o: ProcessOutcome) returns (entry: BatchEntry, mined: seq<Mined>, ok: nat)
    ensures entry == EntryOf(path, o) && mined == MinedFrom(path, o)
    ensures ok == (if o.Success? then 1 else 0)
  {
    mined := [];
    match o {
      case Failure(e) =>
        entry, ok := Errored(path, e), 0;
      case Success(doc) =>
        if doc.needsReview {
          mined := PickLowConfidence(path, doc.corrections);
        }
        entry, ok := Processed(doc), 1;
    }
  }

  /** The loop of `batch_process` over the files: an entry per file, the low-confidence corrections of
      documents needing review, and the number processed. */
  method CollectOutcomes(paths: seq<string>, outcomes: seq<ProcessOutcome>)
    returns (results: seq<BatchEntry>, unknown: seq<Mined>, successful: nat)
    requires |paths| == |outcomes|
    ensures |results| == |paths| && forall k :: 0 <= k < |paths| ==> results[k] == EntryOf(paths[k], outcomes[k])
    ensures unknown == MinedAll(paths, outcomes)
    ensures successful == CountSuccess(outcomes)
  {
    results, unknown, successful := [], [], 0;
    for i := 0 to |paths|
      invariant |results| == i && forall k :: 0 <= k < i ==> results[k] == EntryOf(paths[k], outcomes[k])
      invariant unknown == MinedAll(paths[..i], outcomes[..i])
      invariant successful == CountSuccess(outcomes[..i])
    {
      assert paths[..i + 1][..i] == paths[..i] && outcomes[..i + 1][..i] == outcomes[..i];
      assert MinedAll(paths[..i + 1], outcomes[..i + 1]) == unknown + MinedFrom(paths[i], outcomes[i]);
      assert CountSuccess(outcomes[..i + 1]) == successful + (if outcomes[i].Success? then 1 else 0);
      var entry, mined, ok := CollectOne(paths[i], outcomes[i]);
      results := results + [entry];
      unknown := unknown + mined;
      successful := successful + ok;
    }
    assert paths[..|paths|] == paths && outcomes[..|outcomes|] == outcomes;
  }

  /** `batch_process`: one entry per file in input order, a failure recorded without stopping, then the
      suggestions mined from the documents that need review. */
  method BatchProcess(paths: seq<string>, outcomes: seq<ProcessOutcome>) returns (report: BatchReport)
    requires |paths| == |outcomes|
    ensures report == Batch(paths, outcomes)
    ensures |report.documents| == |paths| == report.totalProcessed
    ensures forall i :: 0 <= i < |paths| ==> report.documents[i] == EntryOf(paths[i], outcomes[i])
    ensures report.successful == CountSuccess(outcomes) <= |paths|
  {
    var results, unknown, successful := CollectOutcomes(paths, outcomes);
    var groups := GroupErrors(unknown);
    var suggestions := Suggest(groups);
    report := BatchReport(results, suggestions, |suggestions| > 0, |results|, successful);
  }

}
