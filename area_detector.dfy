/** The basic area detector (services/area_detector.py): bounding rectangles of external contours larger
    than 50 pixels each way become text blocks, and without any the whole page is one area. Binarisation
    and contour finding are inputs: the detector receives the contours' bounding rectangles. */
module AreaDetector {
  import opened Text

  const MinSide: int := 50

  /** `cv2.boundingRect` of one contour. */
  datatype Rect = Rect(x: int, y: int, w: int, h: int)

  datatype AreaType = TextBlock | FullDocument

  datatype DetectedArea = DetectedArea(x1: int, y1: int, x2: int, y2: int, kind: AreaType)

  predicate LargeEnough(r: Rect) { r.w > MinSide && r.h > MinSide }

  function BlockOf(r: Rect): DetectedArea {
    DetectedArea(r.x, r.y, r.x + r.w, r.y + r.h, TextBlock)
  }

  /** The text blocks of the first rectangles, in contour order. */
  function ContourAreas(rects: seq<Rect>): seq<DetectedArea> {
    if rects == [] then []
    else
      var r := rects[|rects| - 1];
      ContourAreas(rects[..|rects| - 1]) + (if LargeEnough(r) then [BlockOf(r)] else [])
  }

  /** Exactly the rectangles wider and taller than 50 become blocks, each spanning its rectangle, so every
      block is more than 50 wide and high. */
  lemma {:induction false} ContourAreasSpec(rects: seq<Rect>)
    ensures |ContourAreas(rects)| <= |rects|
    ensures forall a :: a in ContourAreas(rects) <==> exists i :: 0 <= i < |rects| && LargeEnough(rects[i]) && a == BlockOf(rects[i])
    ensures forall a :: a in ContourAreas(rects) ==> a.kind == TextBlock && a.x2 - a.x1 > MinSide && a.y2 - a.y1 > MinSide
    ensures ContourAreas(rects) == [] <==> forall i :: 0 <= i < |rects| ==> !LargeEnough(rects[i])
  {
    if rects != [] {
      var init := rects[..|rects| - 1];
      ContourAreasSpec(init);
      assert forall i :: 0 <= i < |init| ==> init[i] == rects[i];
      assert rects[|rects| - 1] == rects[|init|];
    }
  }

  /** `_detect_by_contours`: the filtering loop over the bounding rectangles. */
  method DetectByContours(rects: seq<Rect>) returns (areas: seq<DetectedArea>)
    ensures areas == ContourAreas(rects)
  {
    areas := [];
    for i := 0 to |rects|
      invariant areas == ContourAreas(rects[..i])
    {
      assert rects[..i + 1][..i] == rects[..i];
      var r := rects[i];
      if r.w > MinSide && r.h > MinSide {
        areas := areas + [DetectedArea(r.x, r.y, r.x + r.w, r.y + r.h, TextBlock)];
      }
    }
    assert rects[..|rects|] == rects;
  }

  /** The areas of a page `width` by `height` whose contours have the given bounding rectangles. */
  function AreasOf(width: int, height: int, rects: seq<Rect>): seq<DetectedArea> {
    var blocks := ContourAreas(rects);
    if blocks == [] then [DetectedArea(0, 0, width, height, FullDocument)] else blocks
  }

  /** `detect_areas`: the contour blocks, or the whole page when there are none. The template is accepted
      and not used. */
  method DetectAreas(width: int, height: int, rects: seq<Rect>, template: Option<string>) returns (areas: seq<DetectedArea>)
    ensures areas == AreasOf(width, height, rects)
  {
    areas := DetectByContours(rects);
    if areas == [] {
      areas := [DetectedArea(0, 0, width, height, FullDocument)];
    }
  }

  /** Never empty; exactly one full-page area when no rectangle is large enough, otherwise only text blocks. */
  lemma AreasOfSpec(width: int, height: int, rects: seq<Rect>)
    ensures AreasOf(width, height, rects) != []
    ensures (forall i :: 0 <= i < |rects| ==> !LargeEnough(rects[i])) <==>
      AreasOf(width, height, rects) == [DetectedArea(0, 0, width, height, FullDocument)]
    ensures (exists i :: 0 <= i < |rects| && LargeEnough(rects[i])) ==>
      forall a :: a in AreasOf(width, height, rects) ==> a.kind == TextBlock
  {
    ContourAreasSpec(rects);
  }
}
