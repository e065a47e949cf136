/** The face-embedding wrapper: of the faces the detector reports for a
    frame, the first one is used; its corner box is truncated to integers
    and converted to origin-and-size form. The detector itself is an input:
    either the faces it found, in its order, or the fact that it raised. */
module ArcFace {
  import opened Common

  /** A detector box as floating-point corners `[x1, y1, x2, y2]`. */
  datatype RawBox = RawBox(x1: real, y1: real, x2: real, y2: real)

  datatype Face = Face(embedding: seq<real>, bbox: RawBox)

  /** What `app.get(frame)` did: raised, or returned the detected faces. */
  datatype Detection = Raised | Detected(faces: seq<Face>)

  /** The box the wrapper returns, `[x, y, width, height]`. */
  datatype Xywh = Xywh(x: int, y: int, width: int, height: int)

  /** `astype(int)` on one coordinate: truncation toward zero. */
  function Truncate(x: real): (n: int)
    ensures 0.0 <= x ==> 0 <= n && n as real <= x < n as real + 1.0
    ensures x < 0.0 ==> n <= 0 && n as real - 1.0 < x <= n as real
  {
    if x >= 0.0 then x.Floor else -((-x).Floor)
  }

  /** Conversion from corners to origin and size. */
  function ToXywh(x1: int, y1: int, x2: int, y2: int): (b: Xywh)
    ensures b.x == x1 && b.y == y1
    ensures b.x + b.width == x2 && b.y + b.height == y2
  {
    Xywh(x1, y1, x2 - x1, y2 - y1)
  }

  /** The corners of an origin-and-size box, as `(x1, y1, x2, y2)`. */
  function Corners(b: Xywh): (int, int, int, int)
  {
    (b.x, b.y, b.x + b.width, b.y + b.height)
  }

  /** The conversion loses nothing, in either direction. */
  lemma CornersOfToXywh(x1: int, y1: int, x2: int, y2: int)
    ensures Corners(ToXywh(x1, y1, x2, y2)) == (x1, y1, x2, y2)
  {
  }

  lemma ToXywhOfCorners(b: Xywh)
    ensures var c := Corners(b); ToXywh(c.0, c.1, c.2, c.3) == b
  {
  }

  /** A box whose corners are ordered has a non-negative size. */
  lemma OrderedCornersHaveSize(x1: int, y1: int, x2: int, y2: int)
    requires x1 <= x2 && y1 <= y2
    ensures ToXywh(x1, y1, x2, y2).width >= 0 && ToXywh(x1, y1, x2, y2).height >= 0
  {
  }

  /** The first face's box, truncated and converted. */
  function FormatBox(box: RawBox): (b: Xywh)
    ensures Corners(b) == (Truncate(box.x1), Truncate(box.y1), Truncate(box.x2), Truncate(box.y2))
  {
    var x1, y1, x2, y2 := Truncate(box.x1), Truncate(box.y1), Truncate(box.x2), Truncate(box.y2);
    CornersOfToXywh(x1, y1, x2, y2);
    ToXywh(x1, y1, x2, y2)
  }

  /** `get_embedding_from_frame`: the first face's embedding, or nothing when
      no face was found or the detector raised. */
  function GetEmbeddingFromFrame(d: Detection): (e: Option<seq<real>>)
    ensures e.Some? <==> d.Detected? && |d.faces| > 0
    ensures e.Some? ==> e.value == d.faces[0].embedding
  {
    match d
    case Raised => None
    case Detected(faces) => if |faces| > 0 then Some(faces[0].embedding) else None
  }

  /** `get_embedding_and_bbox_from_frame`: the first face's embedding with its
      formatted box, or `(None, None)` when no face was found or the
      detector raised. */
  function GetEmbeddingAndBbox(d: Detection): (r: (Option<seq<real>>, Option<Xywh>))
    ensures r.0.Some? <==> d.Detected? && |d.faces| > 0
    ensures r.1.Some? <==> r.0.Some?
    ensures r.0.Some? ==> r.0.value == d.faces[0].embedding && r.1.value == FormatBox(d.faces[0].bbox)
  {
    match d
    case Raised => (None, None)
    case Detected(faces) =>
      if |faces| > 0 then (Some(faces[0].embedding), Some(FormatBox(faces[0].bbox))) else (None, None)
  }

  /** Both entry points pick the same face: the embedding returned with the
      box is the one returned alone. */
  lemma EmbeddingsAgree(d: Detection)
    ensures GetEmbeddingAndBbox(d).0 == GetEmbeddingFromFrame(d)
  {
  }

  /** Only the first face counts: faces after it never change the answer. */
  lemma OnlyFirstFaceCounts(f: Face, rest: seq<Face>, other: seq<Face>)
    ensures GetEmbeddingAndBbox(Detected([f] + rest)) == GetEmbeddingAndBbox(Detected([f] + other))
    ensures GetEmbeddingFromFrame(Detected([f] + rest)) == GetEmbeddingFromFrame(Detected([f] + other))
  {
  }

  /** A detector box with whole-number corners is returned at its exact size. */
  lemma WholeBoxKeepsSize(box: RawBox, x1: int, y1: int, x2: int, y2: int)
    requires box == RawBox(x1 as real, y1 as real, x2 as real, y2 as real)
    ensures FormatBox(box) == Xywh(x1, y1, x2 - x1, y2 - y1)
  {
    assert Truncate(x1 as real) == x1 && Truncate(y1 as real) == y1;
    assert Truncate(x2 as real) == x2 && Truncate(y2 as real) == y2;
  }

  /** Truncation moves negative coordinates up and positive ones down:
      `-0.5` and `0.5` both become 0. */
  lemma TruncationTowardZero()
    ensures Truncate(-0.5) == 0 && Truncate(0.5) == 0 && Truncate(-1.5) == -1 && Truncate(1.5) == 1
  {
  }
}
