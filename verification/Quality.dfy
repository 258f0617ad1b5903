/** QoI scoring: cosine similarity, the reference vector, and reward shares. */
module Quality {
  import opened Collections

  type NodeId = string

  /** One node's vote: its predicted class and its probability vector. */
  datatype Response = Response(cls: int, probs: seq<real>)

  /** The position of the first maximum. */
  function ArgMax(v: seq<real>): (r: nat)
    requires v != []
    ensures r < |v|
    ensures forall i :: 0 <= i < |v| ==> v[i] <= v[r]
    ensures forall i :: 0 <= i < r ==> v[i] < v[r]
  {
    if |v| == 1 then 0 else
    var r := ArgMax(v[..|v| - 1]);
    if v[r] < v[|v| - 1] then |v| - 1 else r
  }

  /** Scoring raises unless there is a response and all agreeing vectors have one length. */
  predicate Scorable(responses: Dict<NodeId, Response>, cls: int) {
    && responses != []
    && forall i, j :: 0 <= i < j < |responses| && responses[i].1.cls == cls == responses[j].1.cls
         ==> |responses[i].1.probs| == |responses[j].1.probs|
  }

  // Vectors

  function Sum(v: seq<real>): real {
    if v == [] then 0.0 else Sum(v[..|v| - 1]) + v[|v| - 1]
  }

  function Dot(a: seq<real>, b: seq<real>): real
    requires |a| == |b|
  {
    if a == [] then 0.0 else Dot(a[..|a| - 1], b[..|b| - 1]) + a[|a| - 1] * b[|b| - 1]
  }

  predicate NonNegativeVector(v: seq<real>) {
    forall i :: 0 <= i < |v| ==> v[i] >= 0.0
  }

  predicate Distribution(v: seq<real>) {
    NonNegativeVector(v) && Sum(v) == 1.0
  }

  /** The square root is a given function, exact on the non-negative reals. */
  ghost predicate IsSqrt(sqrt: real -> real) {
    forall x: real :: x >= 0.0 ==> sqrt(x) >= 0.0 && sqrt(x) * sqrt(x) == x
  }

  function Clamp(x: real): real {
    if x < 0.0 then 0.0 else if x > 1.0 then 1.0 else x
  }

  function Normalised(dot: real, normA: real, normB: real): real
    requires normA != 0.0 && normB != 0.0
  {
    assert normA * normB != 0.0;
    dot / (normA * normB)
  }

  /** None where the source raises on vectors of different length. */
  function Cosine(sqrt: real -> real, a: seq<real>, b: seq<real>): Option<real> {
    if |a| != |b| then None else
    var normA, normB := sqrt(Dot(a, a)), sqrt(Dot(b, b));
    if normA == 0.0 || normB == 0.0 then Some(0.0) else
    Some(Clamp(Normalised(Dot(a, b), normA, normB)))
  }

  // Cauchy-Schwarz

  /** The squared length of t*a - b, expanded. */
  function Gap(t: real, a: seq<real>, b: seq<real>): real
    requires |a| == |b|
  {
    if a == [] then 0.0 else
    Gap(t, a[..|a| - 1], b[..|b| - 1]) + Square(t * a[|a| - 1] - b[|b| - 1])
  }

  function Square(x: real): (r: real)
    ensures r >= 0.0
  {
    x * x
  }

  function Quadratic(t: real, p: real, q: real, r: real): real {
    t * t * p - 2.0 * t * q + r
  }

  lemma {:induction false} GapExpanded(t: real, a: seq<real>, b: seq<real>)
    requires |a| == |b|
    ensures Gap(t, a, b) == Quadratic(t, Dot(a, a), Dot(a, b), Dot(b, b))
    ensures Gap(t, a, b) >= 0.0
  {
    hide Quadratic, Square;
    if a == [] {
      QuadraticOfZeros(t);
    } else {
      var a', b' := a[..|a| - 1], b[..|b| - 1];
      GapExpanded(t, a', b');
      GapStep(t, Dot(a', a'), Dot(a', b'), Dot(b', b'), a[|a| - 1], b[|b| - 1], Dot(a, a), Dot(a, b), Dot(b, b));
    }
  }

  lemma QuadraticOfZeros(t: real)
    ensures Quadratic(t, 0.0, 0.0, 0.0) == 0.0
  {}

  lemma GapStep(t: real, p: real, q: real, r: real, x: real, y: real, p': real, q': real, r': real)
    requires p' == p + x * x && q' == q + x * y && r' == r + y * y
    ensures Quadratic(t, p, q, r) + Square(t * x - y) == Quadratic(t, p', q', r')
  {
    hide Quadratic, Square;
    SquareOfDifference(t, x, y);
    QuadraticsAdd(t, p, q, r, x * x, x * y, y * y, p', q', r');
  }

  lemma SquareOfDifference(t: real, x: real, y: real)
    ensures Square(t * x - y) == Quadratic(t, x * x, x * y, y * y)
  {
    var u := t * x;
    assert (u - y) * (u - y) == u * u - 2.0 * (u * y) + y * y;
    assert u * u == t * t * (x * x);
    assert u * y == t * (x * y);
  }

  lemma QuadraticsAdd(t: real, p: real, q: real, r: real, x: real, y: real, z: real, p': real, q': real, r': real)
    requires p' == p + x && q' == q + y && r' == r + z
    ensures Quadratic(t, p, q, r) + Quadratic(t, x, y, z) == Quadratic(t, p', q', r')
  {}

  /** A quadratic that is nowhere negative has no positive discriminant. */
  lemma Discriminant(p: real, q: real, r: real, t: real)
    requires p > 0.0 && t * p == q && t * t * p - 2.0 * t * q + r >= 0.0
    ensures q * q <= p * r
  {
    assert t * t * p == t * q;
    assert r - t * q >= 0.0;
    assert p * (r - t * q) >= 0.0;
    assert p * (t * q) == q * q;
  }

  /** Cauchy-Schwarz for vectors of any length. */
  lemma CauchySchwarz(a: seq<real>, b: seq<real>)
    requires |a| == |b|
    ensures Dot(a, b) * Dot(a, b) <= Dot(a, a) * Dot(b, b)
    ensures Dot(a, a) >= 0.0 && Dot(b, b) >= 0.0
  {
    hide Dot, Gap;
    var p, q, r := Dot(a, a), Dot(a, b), Dot(b, b);
    GapExpanded(0.0, b, a);
    GapExpanded(0.0, a, b);
    if p > 0.0 {
      var t := q / p;
      GapExpanded(t, a, b);
      Discriminant(p, q, r, t);
    } else if q != 0.0 {
      var t := (r + 1.0) / q;
      GapExpanded(t, a, b);
    }
  }

  lemma {:induction false} DotNonNegative(a: seq<real>, b: seq<real>)
    requires |a| == |b| && NonNegativeVector(a) && NonNegativeVector(b)
    ensures Dot(a, b) >= 0.0
  {
    if a != [] {
      DotNonNegative(a[..|a| - 1], b[..|b| - 1]);
    }
  }

  /** On non-negative vectors the clamp never acts: the quotient itself lies between 0 and 1. */
  lemma ClampIdle(sqrt: real -> real, a: seq<real>, b: seq<real>)
    requires IsSqrt(sqrt) && |a| == |b| && NonNegativeVector(a) && NonNegativeVector(b)
    requires sqrt(Dot(a, a)) != 0.0 && sqrt(Dot(b, b)) != 0.0
    ensures var r := Normalised(Dot(a, b), sqrt(Dot(a, a)), sqrt(Dot(b, b)));
            0.0 <= r <= 1.0 && Cosine(sqrt, a, b) == Some(r)
  {
    hide Dot, NonNegativeVector, Normalised;
    CauchySchwarz(a, b);
    DotNonNegative(a, b);
    var d, x, y := Dot(a, b), sqrt(Dot(a, a)), sqrt(Dot(b, b));
    assert x * x == Dot(a, a) && y * y == Dot(b, b);
    BelowProduct(d, x, y);
  }

  lemma BelowProduct(d: real, x: real, y: real)
    requires d >= 0.0 && x > 0.0 && y > 0.0 && d * d <= (x * x) * (y * y)
    ensures 0.0 <= Normalised(d, x, y) <= 1.0
  {
    var z := x * y;
    assert z > 0.0;
    assert z * z == (x * x) * (y * y);
    assert d <= z by { RootMonotone(d, z); }
    var r := d / z;
    assert r * z == d;
  }

  lemma RootMonotone(d: real, z: real)
    requires d >= 0.0 && z > 0.0 && d * d <= z * z
    ensures d <= z
  {}
}
