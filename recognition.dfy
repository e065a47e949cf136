/** Face match classification: cosine similarity of two embeddings with a
    guard for zero vectors, the match threshold and the confidence bands. */
module Recognition {

  /** `np.dot` of two vectors of equal length. */
  function Dot(a: seq<real>, b: seq<real>): real
    requires |a| == |b|
    decreases |a|
  {
    if a == [] then 0.0 else a[0] * b[0] + Dot(a[1..], b[1..])
  }

  /** A product, with the sign rule for two positive factors. */
  function Product(a: real, b: real): (r: real)
    ensures a > 0.0 && b > 0.0 ==> r > 0.0
  {
    a * b
  }

  /** A quotient, characterised by multiplying back. */
  function Quotient(n: real, d: real): (q: real)
    requires d != 0.0
    ensures q * d == n
  {
    n / d
  }

  /** `dot / (normA * normB)` for positive norms. */
  function Ratio(dot: real, normA: real, normB: real): (r: real)
    requires normA > 0.0 && normB > 0.0
    ensures r * Product(normA, normB) == dot
  {
    Quotient(dot, Product(normA, normB))
  }

  /** `x²`, which is positive except at zero. */
  function Square(x: real): (r: real)
    ensures r >= 0.0
    ensures x != 0.0 ==> r > 0.0
    ensures x == 0.0 ==> r == 0.0
  {
    if x < 0.0 then Product(-x, -x) else if x > 0.0 then Product(x, x) else 0.0
  }

  lemma SquareIsProduct(x: real)
    ensures Square(x) == x * x
  {
    if x < 0.0 {
      assert (-x) * (-x) == x * x;
    }
  }

  /** The squared Euclidean norm, `a · a`. */
  function SquaredNorm(a: seq<real>): (n: real)
    ensures n >= 0.0
    decreases |a|
  {
    if a == [] then 0.0 else Square(a[0]) + SquaredNorm(a[1..])
  }

  lemma {:induction false} SquaredNormIsDot(a: seq<real>)
    ensures SquaredNorm(a) == Dot(a, a)
    decreases |a|
  {
    if a != [] {
      SquareIsProduct(a[0]);
      SquaredNormIsDot(a[1..]);
    }
  }

  /** The norm is zero exactly for the zero vector. */
  lemma {:induction false} ZeroNormIffZeroVector(a: seq<real>)
    ensures SquaredNorm(a) == 0.0 <==> forall i :: 0 <= i < |a| ==> a[i] == 0.0
    decreases |a|
  {
    if a != [] {
      var rest := a[1..];
      ZeroNormIffZeroVector(rest);
      assert (forall i :: 0 <= i < |a| ==> a[i] == 0.0) <==>
        a[0] == 0.0 && forall i :: 0 <= i < |rest| ==> rest[i] == 0.0;
    }
  }

  /** A norm as `np.linalg.norm` returns it: the non-negative square root of
      the squared norm. */
  predicate IsNorm(a: seq<real>, norm: real)
  {
    norm >= 0.0 && Square(norm) == SquaredNorm(a)
  }

  /** `cosine_similarity`: vectors of different lengths make `np.dot` raise,
      which yields 0.0; a zero norm on either side yields 0.0; otherwise the
      dot product divided by the product of the norms. */
  function CosineSimilarity(a: seq<real>, b: seq<real>, normA: real, normB: real): (r: real)
    requires IsNorm(a, normA) && IsNorm(b, normB)
    ensures |a| != |b| ==> r == 0.0
    ensures normA == 0.0 || normB == 0.0 ==> r == 0.0
    ensures |a| == |b| && normA != 0.0 && normB != 0.0 ==> normA > 0.0 && normB > 0.0 && r == Ratio(Dot(a, b), normA, normB)
  {
    if |a| != |b| then 0.0
    else if normA == 0.0 || normB == 0.0 then 0.0
    else
      Ratio(Dot(a, b), normA, normB)
  }

  /** The guard in terms of the vectors: a zero embedding on either side has
      similarity 0.0 to anything. */
  lemma ZeroVectorHasZeroSimilarity(a: seq<real>, b: seq<real>, normA: real, normB: real)
    requires IsNorm(a, normA) && IsNorm(b, normB)
    requires (forall i :: 0 <= i < |a| ==> a[i] == 0.0) || (forall i :: 0 <= i < |b| ==> b[i] == 0.0)
    ensures CosineSimilarity(a, b, normA, normB) == 0.0
  {
    ZeroNormIffZeroVector(a);
    ZeroNormIffZeroVector(b);
  }

  /** `euclidean_distance`'s result: a distance, or infinity when `a - b` raises. */
  datatype Distance = Finite(value: real) | Infinite

  /** `a - b` is defined when the lengths agree or one side has a single
      element, which is broadcast against the other. */
  predicate Broadcastable(a: seq<real>, b: seq<real>)
  {
    |a| == |b| || |a| == 1 || |b| == 1
  }

  /** The element of `a` that meets position `k` of the broadcast result. */
  function At(a: seq<real>, k: nat): real
    requires |a| == 1 || k < |a|
  {
    if |a| == 1 then a[0] else a[k]
  }

  /** `a - b` with broadcasting; for equal lengths, the elementwise difference. */
  function Difference(a: seq<real>, b: seq<real>): (d: seq<real>)
    requires Broadcastable(a, b)
    ensures |d| == if |a| == |b| || |b| == 1 then |a| else |b|
    ensures |a| == |b| ==> forall k :: 0 <= k < |d| ==> d[k] == a[k] - b[k]
    ensures forall k :: 0 <= k < |d| ==> d[k] == At(a, k) - At(b, k)
  {
    var n := if |a| == |b| || |b| == 1 then |a| else |b|;
    seq(n, k requires 0 <= k < n => At(a, k) - At(b, k))
  }

  /** `euclidean_distance`: the norm of `a - b`, or infinity when the
      subtraction raises. */
  function EuclideanDistance(a: seq<real>, b: seq<real>, norm: real): (d: Distance)
    requires Broadcastable(a, b) ==> IsNorm(Difference(a, b), norm)
    ensures d.Infinite? <==> !Broadcastable(a, b)
    ensures d.Finite? ==> d.value >= 0.0 && Square(d.value) == SquaredNorm(Difference(a, b))
  {
    if Broadcastable(a, b) then Finite(norm) else Infinite
  }

  /** Negating every element leaves the squared norm as it is. */
  lemma {:induction false} SquaredNormOfNegation(u: seq<real>, v: seq<real>)
    requires |u| == |v| && forall k :: 0 <= k < |u| ==> v[k] == -u[k]
    ensures SquaredNorm(u) == SquaredNorm(v)
    decreases |u|
  {
    if u != [] {
      assert Square(v[0]) == Square(u[0]);
      SquaredNormOfNegation(u[1..], v[1..]);
    }
  }

  /** Two vectors of one length are at distance zero exactly when they are equal. */
  lemma DistanceZeroIffEqual(a: seq<real>, b: seq<real>, norm: real)
    requires |a| == |b| && IsNorm(Difference(a, b), norm)
    ensures EuclideanDistance(a, b, norm) == Finite(0.0) <==> a == b
  {
    var d := Difference(a, b);
    ZeroNormIffZeroVector(d);
    if a == b {
      assert forall k :: 0 <= k < |d| ==> d[k] == 0.0;
    }
    if norm == 0.0 {
      assert forall k :: 0 <= k < |a| ==> a[k] == b[k] by {
        forall k | 0 <= k < |a| ensures a[k] == b[k] {
          assert d[k] == 0.0;
        }
      }
    }
  }

  /** The distance is symmetric. */
  lemma DistanceSymmetric(a: seq<real>, b: seq<real>, norm: real)
    requires Broadcastable(a, b) && IsNorm(Difference(a, b), norm)
    ensures IsNorm(Difference(b, a), norm)
    ensures EuclideanDistance(b, a, norm) == EuclideanDistance(a, b, norm)
  {
    SquaredNormOfNegation(Difference(a, b), Difference(b, a));
  }

  const DefaultThreshold: real := 0.4

  /** `compare_faces`: the similarity, unchanged, and whether it reaches the threshold. */
  function CompareFaces(a: seq<real>, b: seq<real>, normA: real, normB: real, threshold: real): (r: (bool, real))
    requires IsNorm(a, normA) && IsNorm(b, normB)
    ensures r.1 == CosineSimilarity(a, b, normA, normB)
    ensures r.0 <==> r.1 >= threshold
  {
    var similarity := CosineSimilarity(a, b, normA, normB);
    (similarity >= threshold, similarity)
  }

  /** With a positive threshold, such as the default, a zero embedding matches nothing. */
  lemma ZeroEmbeddingNeverMatches(a: seq<real>, b: seq<real>, normA: real, normB: real, threshold: real)
    requires IsNorm(a, normA) && IsNorm(b, normB)
    requires forall i :: 0 <= i < |a| ==> a[i] == 0.0
    requires threshold > 0.0
    ensures !CompareFaces(a, b, normA, normB, threshold).0
  {
    ZeroVectorHasZeroSimilarity(a, b, normA, normB);
  }

  /** Lowering the threshold never loses a match. */
  lemma MatchMonotoneInThreshold(a: seq<real>, b: seq<real>, normA: real, normB: real, low: real, high: real)
    requires IsNorm(a, normA) && IsNorm(b, normB)
    requires low <= high
    ensures CompareFaces(a, b, normA, normB, high).0 ==> CompareFaces(a, b, normA, normB, low).0
  {
  }

  /** `get_confidence_level`: "high" from 0.7, "medium" from 0.5, "low" below. */
  function ConfidenceLevel(similarity: real): (level: string)
    ensures level in {"high", "medium", "low"}
    ensures level == "high" <==> similarity >= 0.7
    ensures level == "medium" <==> 0.5 <= similarity < 0.7
    ensures level == "low" <==> similarity < 0.5
  {
    if similarity >= 0.7 then "high"
    else if similarity >= 0.5 then "medium"
    else "low"
  }

  /** The order low < medium < high. */
  function Rank(level: string): nat
  {
    if level == "high" then 2 else if level == "medium" then 1 else 0
  }

  /** A higher similarity never gets a lower level. */
  lemma ConfidenceMonotone(s: real, t: real)
    requires s <= t
    ensures Rank(ConfidenceLevel(s)) <= Rank(ConfidenceLevel(t))
  {
  }

  /** The bands and the default threshold are independent: a match at the
      default threshold can still be of low confidence. */
  lemma MatchCanBeLowConfidence()
    ensures 0.45 >= DefaultThreshold && ConfidenceLevel(0.45) == "low"
  {
  }
}
