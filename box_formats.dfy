/** How a box produced by the embedding wrapper fares in the overlay. The
    wrapper answers `[x, y, width, height]`, while the overlay destructures
    its four numbers as two corners `[x1, y1, x2, y2]`. */
module BoxFormats {
  import opened Common
  import opened Overlay
  import opened ArcFace

  /** The overlay's reading of the wrapper's four numbers, as written: the
      third and fourth are taken for the far corner. */
  function ReadAsCorners(b: Xywh): (c: Overlay.Corners)
    ensures c.x1 == b.x && c.y1 == b.y && c.x2 == b.width && c.y2 == b.height
  {
    Overlay.Corners(b.x, b.y, b.width, b.height)
  }

  /** The reading the wrapper's format calls for: the far corner is the
      origin plus the size. */
  function ReadAsXywh(b: Xywh): (c: Overlay.Corners)
    ensures (c.x1, c.y1, c.x2, c.y2) == ArcFace.Corners(b)
  {
    Overlay.Corners(b.x, b.y, b.x + b.width, b.y + b.height)
  }

  predicate Complete(surface: Surface)
  {
    surface.hasCanvas && surface.hasVideo && surface.hasContext
  }

  /** As written, the stroked rectangle has width `width - x` and height
      `height - y`: it matches the face only for a box at the origin. */
  lemma OverlayMisreadsBox(surface: Surface, founded: Option<Founded>, b: Xywh)
    requires Complete(surface)
    ensures var cmds := DrawBoundingBox(surface, founded, ReadAsCorners(b));
      cmds[4] == StrokeRect(b.x, b.y, b.width - b.x, b.height - b.y) &&
      (cmds[4].w == b.width <==> b.x == 0) &&
      (cmds[4].h == b.height <==> b.y == 0)
  {
    DrawGeometry(surface, founded, ReadAsCorners(b));
  }

  /** A face 80 by 120 pixels at (100, 50) is stroked with width -20 and
      height 70. */
  lemma MisreadExample(surface: Surface, founded: Option<Founded>)
    requires Complete(surface)
    ensures DrawBoundingBox(surface, founded, ReadAsCorners(Xywh(100, 50, 80, 120)))[4] == StrokeRect(100, 50, -20, 70)
  {
    OverlayMisreadsBox(surface, founded, Xywh(100, 50, 80, 120));
  }

  /** Read as origin and size, the stroked rectangle is exactly the box. */
  lemma CorrectedBoxIsStroked(surface: Surface, founded: Option<Founded>, b: Xywh)
    requires Complete(surface)
    ensures DrawBoundingBox(surface, founded, ReadAsXywh(b))[4] == StrokeRect(b.x, b.y, b.width, b.height)
  {
    DrawGeometry(surface, founded, ReadAsXywh(b));
  }

  /** End to end, with the corrected reading: the overlay strokes the first
      detected face's truncated corners. */
  lemma FirstFaceIsStroked(surface: Surface, founded: Option<Founded>, d: Detection)
    requires Complete(surface)
    requires GetEmbeddingAndBbox(d).1.Some?
    ensures var box := d.faces[0].bbox; var cmd := DrawBoundingBox(surface, founded, ReadAsXywh(GetEmbeddingAndBbox(d).1.value))[4];
      cmd.StrokeRect? && cmd.x == Truncate(box.x1) && cmd.y == Truncate(box.y1) &&
      cmd.x + cmd.w == Truncate(box.x2) && cmd.y + cmd.h == Truncate(box.y2)
  {
    CorrectedBoxIsStroked(surface, founded, GetEmbeddingAndBbox(d).1.value);
  }
}
