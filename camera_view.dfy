/** The detection overlay drawn over the camera video: from the latest
    `founded` result and the state of the page's canvas, video and 2-D
    context, the ordered canvas operations issued. Coordinates are drawn as
    received, with no scaling between video and canvas pixels. */
module Overlay {
  import opened Common

  /** A box as the overlay reads it: two corners. */
  datatype Corners = Corners(x1: int, y1: int, x2: int, y2: int)

  /** The `founded` payload; each field may be missing. */
  datatype Founded = Founded(matched: Option<bool>, similarity: Option<real>, name: Option<string>, bbox: Option<Corners>)

  /** What the page has at the moment the effect runs: whether the canvas,
      the video and a 2-D context exist, the video's intrinsic size and the
      canvas's current size. */
  datatype Surface = Surface(
    hasCanvas: bool, hasVideo: bool, hasContext: bool,
    videoWidth: nat, videoHeight: nat, canvasWidth: nat, canvasHeight: nat)

  /** One canvas operation, in the order issued. */
  datatype Command =
    | SetCanvasSize(width: nat, height: nat)
    | ClearRect(x: int, y: int, w: int, h: int)
    | SetStrokeStyle(style: string)
    | SetLineWidth(lineWidth: int)
    | StrokeRect(x: int, y: int, w: int, h: int)
    | SetFillStyle(style: string)
    | FillRect(x: int, y: int, w: int, h: int)
    | SetFont(font: string)
    | FillText(text: string, x: int, y: int)

  const BoxColor := "#10b981"
  const LabelColor := "white"
  const LabelFont := "14px sans-serif"
  const BandHeight := 25

  /** `Math.round`: the nearest integer, halves rounded up. */
  function Round(x: real): (n: int)
    ensures n as real - 0.5 <= x < n as real + 0.5
  {
    (x + 0.5).Floor
  }

  /** `founded?.name || "Detected"`: a missing or empty name shows "Detected". */
  function DisplayName(founded: Option<Founded>): (name: string)
    ensures name != ""
    ensures founded.Some? && founded.value.name.Some? && founded.value.name.value != "" ==> name == founded.value.name.value
    ensures (founded.None? || founded.value.name.None? || founded.value.name.value == "") ==> name == "Detected"
  {
    if founded.Some? && founded.value.name.Some? && founded.value.name.value != "" then founded.value.name.value
    else "Detected"
  }

  /** `founded?.similarity || 0`. */
  function ShownSimilarity(founded: Option<Founded>): (s: real)
    ensures founded.None? || founded.value.similarity.None? ==> s == 0.0
    ensures founded.Some? && founded.value.similarity.Some? ==> s == founded.value.similarity.value
  {
    if founded.Some? && founded.value.similarity.Some? then founded.value.similarity.value else 0.0
  }

  /** The label: the name, then the similarity as a rounded percentage in
      parentheses. */
  function Label(founded: Option<Founded>): (text: string)
    ensures |text| > |DisplayName(founded)| + 4
    ensures text[..|DisplayName(founded)|] == DisplayName(founded) && text[|text| - 2..] == "%)"
  {
    DisplayName(founded) + " (" + IntToString(Round(ShownSimilarity(founded) * 100.0)) + "%)"
  }

  /** `video.videoWidth || 640`. */
  function CanvasWidth(videoWidth: nat): (w: nat)
    ensures w > 0
    ensures w == if videoWidth == 0 then 640 else videoWidth
  {
    if videoWidth == 0 then 640 else videoWidth
  }

  /** `video.videoHeight || 480`. */
  function CanvasHeight(videoHeight: nat): (h: nat)
    ensures h > 0
    ensures h == if videoHeight == 0 then 480 else videoHeight
  {
    if videoHeight == 0 then 480 else videoHeight
  }

  /** `drawBoundingBox(bbox)`: nothing without canvas, video or context;
      otherwise the canvas is sized to the video, cleared, the box stroked,
      a label band filled above it and the label written in the band. */
  function DrawBoundingBox(surface: Surface, founded: Option<Founded>, bbox: Corners): (cmds: seq<Command>)
    ensures cmds == [] <==> !surface.hasCanvas || !surface.hasVideo || !surface.hasContext
    ensures cmds != [] ==>
      |cmds| == 10 && cmds[0].SetCanvasSize? && cmds[1] == ClearRect(0, 0, cmds[0].width, cmds[0].height) &&
      cmds[9] == FillText(Label(founded), bbox.x1 + 5, bbox.y1 - 8)
  {
    if !surface.hasCanvas || !surface.hasVideo || !surface.hasContext then []
    else
      var w, h := CanvasWidth(surface.videoWidth), CanvasHeight(surface.videoHeight);
      var width, height := bbox.x2 - bbox.x1, bbox.y2 - bbox.y1;
      [ SetCanvasSize(w, h),
        ClearRect(0, 0, w, h),
        SetStrokeStyle(BoxColor),
        SetLineWidth(3),
        StrokeRect(bbox.x1, bbox.y1, width, height),
        SetFillStyle(BoxColor),
        FillRect(bbox.x1, bbox.y1 - BandHeight, width, BandHeight),
        SetFillStyle(LabelColor),
        SetFont(LabelFont),
        FillText(Label(founded), bbox.x1 + 5, bbox.y1 - 8) ]
  }

  /** Whether a result calls for a box: `founded?.matched && founded.bbox`. */
  predicate CallsForBox(founded: Option<Founded>)
  {
    founded.Some? && founded.value.matched == Some(true) && founded.value.bbox.Some?
  }

  /** The effect that runs on every new `founded`: draw the box when one is
      called for, else clear the canvas at its current size when there is a
      canvas with a context. Whatever it issues begins by wiping the canvas. */
  function Effect(surface: Surface, founded: Option<Founded>): (cmds: seq<Command>)
    ensures cmds == [] <==>
      if CallsForBox(founded) then !surface.hasCanvas || !surface.hasVideo || !surface.hasContext
      else !surface.hasCanvas || !surface.hasContext
    ensures cmds != [] ==>
      || (CallsForBox(founded) && |cmds| == 10 && cmds[0].SetCanvasSize? && cmds[1] == ClearRect(0, 0, cmds[0].width, cmds[0].height))
      || (!CallsForBox(founded) && cmds == [ClearRect(0, 0, surface.canvasWidth, surface.canvasHeight)])
  {
    if CallsForBox(founded) then DrawBoundingBox(surface, founded, founded.value.bbox.value)
    else if surface.hasCanvas && surface.hasContext then [ClearRect(0, 0, surface.canvasWidth, surface.canvasHeight)]
    else []
  }

  predicate IsStroke(c: Command) { c.StrokeRect? }

  /** A box is stroked exactly when one is called for and canvas, video and
      context all exist; otherwise at most one clear is issued. */
  lemma StrokedIffCalledFor(surface: Surface, founded: Option<Founded>)
    ensures (exists i :: 0 <= i < |Effect(surface, founded)| && IsStroke(Effect(surface, founded)[i])) <==>
      CallsForBox(founded) && surface.hasCanvas && surface.hasVideo && surface.hasContext
    ensures !CallsForBox(founded) ==>
      |Effect(surface, founded)| <= 1 && forall c :: c in Effect(surface, founded) ==> c.ClearRect?
  {
    var cmds := Effect(surface, founded);
    if CallsForBox(founded) && surface.hasCanvas && surface.hasVideo && surface.hasContext {
      assert IsStroke(cmds[4]);
    }
  }

  /** Missing canvas, video or context: the draw issues nothing at all. */
  lemma NothingWithoutSurface(surface: Surface, founded: Option<Founded>, bbox: Corners)
    requires !surface.hasCanvas || !surface.hasVideo || !surface.hasContext
    ensures DrawBoundingBox(surface, founded, bbox) == []
  {
  }

  /** Every draw starts by sizing the canvas to the video (640 by 480 in
      place of missing dimensions) and clearing all of it; the box is the
      raw corners' rectangle; the label band is a 25-pixel strip of the
      box's width directly above it, and the text sits inside the band. */
  lemma DrawGeometry(surface: Surface, founded: Option<Founded>, bbox: Corners)
    requires surface.hasCanvas && surface.hasVideo && surface.hasContext
    ensures var cmds := DrawBoundingBox(surface, founded, bbox);
      |cmds| == 10 &&
      cmds[0] == SetCanvasSize(if surface.videoWidth == 0 then 640 else surface.videoWidth,
                               if surface.videoHeight == 0 then 480 else surface.videoHeight) &&
      cmds[1] == ClearRect(0, 0, cmds[0].width, cmds[0].height) &&
      (forall i :: 2 <= i < |cmds| ==> !cmds[i].SetCanvasSize? && !cmds[i].ClearRect?) &&
      cmds[4].StrokeRect? && cmds[6].FillRect? && cmds[9].FillText? &&
      cmds[4].x == bbox.x1 && cmds[4].y == bbox.y1 &&
      cmds[4].x + cmds[4].w == bbox.x2 && cmds[4].y + cmds[4].h == bbox.y2 &&
      cmds[6].x == cmds[4].x && cmds[6].w == cmds[4].w && cmds[6].h == 25 &&
      cmds[6].y + cmds[6].h == cmds[4].y &&
      cmds[6].x < cmds[9].x && cmds[6].y < cmds[9].y < cmds[6].y + cmds[6].h &&
      cmds[9].text == Label(founded)
  {
  }

  /** The label reads back: the name ("Detected" when it is missing or
      empty), " (", digits that parse to the rounded percentage of the
      similarity (0 when it is missing), "%)". */
  lemma {:induction false} LabelReadsBack(founded: Option<Founded>)
    ensures var text := Label(founded);
      var name := if founded.Some? && founded.value.name.Some? && founded.value.name.value != ""
                  then founded.value.name.value else "Detected";
      var similarity := if founded.Some? && founded.value.similarity.Some? then founded.value.similarity.value else 0.0;
      var n := |name|;
      |text| > n + 4 &&
      text[..n] == name && text[n..n + 2] == " (" && text[|text| - 2..] == "%)" &&
      var digits := text[n + 2..|text| - 2];
      |digits| > 0 &&
      (forall k :: (if digits[0] == '-' then 1 else 0) <= k < |digits| ==> IsDigit(digits[k])) &&
      ParseInt(digits) == Round(similarity * 100.0)
  {
    var pct := Round(ShownSimilarity(founded) * 100.0);
    var name, digits := DisplayName(founded), IntToString(pct);
    var text := Label(founded);
    assert text == name + " (" + digits + "%)";
    assert text[|name| + 2..|text| - 2] == digits;
    IntToStringRoundTrip(pct);
  }

  /** A similarity within half a percent of p shows as p%. */
  lemma LabelPercentage(founded: Option<Founded>, p: int)
    requires p as real - 0.5 <= ShownSimilarity(founded) * 100.0 < p as real + 0.5
    ensures Round(ShownSimilarity(founded) * 100.0) == p
  {
  }

  /** A result without a similarity is labelled "0%". */
  lemma MissingSimilarityShowsZero(founded: Option<Founded>)
    requires founded.None? || founded.value.similarity.None?
    ensures Label(founded) == DisplayName(founded) + " (0%)"
  {
    assert Round(0.0 * 100.0) == 0;
    assert IntToString(0) == "0";
  }
}
