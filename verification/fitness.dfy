/**
 * The fitness evaluator of MapBrain: a pure function from a map snapshot to
 * an integer score.
 */
module Fitness {
  import opened Snapshot

  /** The run-level fitness weights. The float `fitnessObstacleWeight` is the
      rational obstacleWeightNum / obstacleWeightDen. */
  datatype FitnessParams = FitnessParams(
    cornerMin: int,
    cornerMax: int,
    cornerWeight: int,
    nearCornerWeight: int,
    obstacleWeightNum: int,
    obstacleWeightDen: int,
    pathWeight: int)

  predicate ValidParams(p: FitnessParams)
  {
    p.obstacleWeightDen > 0
  }

  /** The serialized defaults of MapBrain: corner window [6, 12], every weight 1. */
  const DefaultParams := FitnessParams(6, 12, 1, 1, 1, 1, 1)

  /** C#'s `(int)` cast of a non-integral quotient: truncation toward zero,
      which differs from Dafny's Euclidean `/` for negative numerators. */
  function TruncDiv(a: int, d: int): (q: int)
    requires d > 0
    ensures a >= 0 ==> 0 <= q && q * d <= a < q * d + d
    ensures a < 0 ==> q <= 0 && (-q) * d <= -a < (-q) * d + d
  {
    if a >= 0 then DivBounds(a, d); a / d
    else DivBounds(-a, d); -((-a) / d)
  }

  lemma DivBounds(a: int, d: int)
    requires a >= 0 && d > 0
    ensures 0 <= a / d && (a / d) * d <= a < (a / d) * d + d
  {
  }

  /** Cancelling a positive factor: q * d <= n * d implies q <= n. */
  lemma CancelFactor(q: int, n: int, d: int)
    requires d > 0 && q * d <= n * d
    ensures q <= n
  {
  }

  /** Multiplying by a non-negative factor keeps the order. */
  lemma MulMonotone(k: int, a: int, b: int)
    requires k >= 0 && a <= b
    ensures k * a <= k * b
  {
    assert k * b - k * a == k * (b - a);
  }

  /** For a non-negative numerator the truncation is Dafny's division. */
  lemma TruncDivOfNonNegative(a: int, d: int)
    requires a >= 0 && d > 0
    ensures TruncDiv(a, d) == a / d
    ensures 0 <= a / d && (a / d) * d <= a < (a / d) * d + d
  {
    DivBounds(a, d);
  }

  /** A whole multiple divides back exactly. */
  lemma {:induction false} ExactQuotient(n: int, d: int)
    requires n >= 0 && d > 0
    ensures (n * d) / d == n
  {
    var q := (n * d) / d;
    DivBounds(n * d, d);
    CancelFactor(q, n, d);
    if q < n {
      MulMonotone(d, q + 1, n);
    }
  }

  /** The scaled, truncated obstacle term for a count n and weight num / d. */
  lemma {:induction false} ScaledTruncBounds(n: nat, num: int, d: int)
    requires d > 0 && 0 <= num <= d
    ensures 0 <= TruncDiv(n * num, d) <= n
    ensures num == d ==> TruncDiv(n * num, d) == n
  {
    MulMonotone(n, 0, num);
    MulMonotone(n, num, d);
    var x := n * num;
    TruncDivOfNonNegative(x, d);
    var q := x / d;
    assert q * d <= n * d;
    CancelFactor(q, n, d);
    if num == d {
      ExactQuotient(n, d);
    }
  }

  lemma {:induction false} ScaledTruncMonotone(n1: nat, n2: nat, num: int, d: int)
    requires d > 0 && 0 <= num && n1 <= n2
    ensures TruncDiv(n1 * num, d) <= TruncDiv(n2 * num, d)
  {
    MulMonotone(num, 0, n1);
    MulMonotone(num, n1, n2);
    var x, y := n1 * num, n2 * num;
    assert 0 <= x <= y;
    TruncDivOfNonNegative(x, d);
    TruncDivOfNonNegative(y, d);
    var qa, qb := x / d, y / d;
    if qa > qb {
      MulMonotone(d, qb + 1, qa);
    }
  }

  /** `(int)(numberOfObstacles * fitnessObstacleWeight)`. */
  function ObstacleTerm(p: FitnessParams, obstacles: seq<bool>): (term: int)
    requires ValidParams(p)
    ensures p.obstacleWeightNum >= 0 ==>
      && 0 <= term
      && term * p.obstacleWeightDen <= CountTrue(obstacles) * p.obstacleWeightNum
      && CountTrue(obstacles) * p.obstacleWeightNum < term * p.obstacleWeightDen + p.obstacleWeightDen
  {
    TruncDiv(CountTrue(obstacles) * p.obstacleWeightNum, p.obstacleWeightDen)
  }

  /** CalculateFitness, statement by statement as the source computes it.
      The score is the path term plus the obstacle term plus the corner term
      of the window case the corner count falls in, minus the near-corner
      penalty. */
  function CalculateFitness(p: FitnessParams, mapData: MapData): (score: int)
    requires ValidParams(p)
    ensures score == |mapData.path| * p.pathWeight + ObstacleTerm(p, mapData.obstacleArray)
                     + CornerAdjustment(p, |mapData.cornersList|)
                     - mapData.cornersNearEachOther * p.nearCornerWeight
  {
    var numberOfObstacles := CountTrue(mapData.obstacleArray);
    var score := |mapData.path| * p.pathWeight
                 + TruncDiv(numberOfObstacles * p.obstacleWeightNum, p.obstacleWeightDen);
    var cornersCount := |mapData.cornersList|;
    var score :=
      if cornersCount >= p.cornerMin && cornersCount <= p.cornerMax then
        score + cornersCount * p.cornerWeight
      else if cornersCount > p.cornerMax then
        score - p.cornerWeight * (cornersCount - p.cornerMax)
      else if cornersCount < p.cornerMin then
        score - p.cornerWeight * p.cornerMin
      else
        score;
    score - mapData.cornersNearEachOther * p.nearCornerWeight
  }

  /** The corner term over its three disjoint cases: inside the window
      [cornerMin, cornerMax], above cornerMax, and the rest (below
      cornerMin). */
  function CornerAdjustment(p: FitnessParams, corners: nat): (adj: int)
    ensures p.cornerMin <= corners <= p.cornerMax ==> adj == corners * p.cornerWeight
    ensures corners > p.cornerMax ==> adj == -p.cornerWeight * (corners - p.cornerMax)
    ensures corners <= p.cornerMax && corners < p.cornerMin ==> adj == -p.cornerWeight * p.cornerMin
  {
    if p.cornerMin <= corners <= p.cornerMax then corners * p.cornerWeight
    else if corners > p.cornerMax then -p.cornerWeight * (corners - p.cornerMax)
    else -p.cornerWeight * p.cornerMin
  }

  /** Below the corner window every corner count costs the same fixed
      penalty `cornerWeight * cornerMin`, however few corners there are. */
  lemma FitnessFlatBelowCornerMin(p: FitnessParams, m1: MapData, m2: MapData)
    requires ValidParams(p)
    requires m1.obstacleArray == m2.obstacleArray && |m1.path| == |m2.path|
    requires m1.cornersNearEachOther == m2.cornersNearEachOther
    requires p.cornerMin <= p.cornerMax
    requires |m1.cornersList| < p.cornerMin && |m2.cornersList| < p.cornerMin
    ensures CalculateFitness(p, m1) == CalculateFitness(p, m2)
  {
  }

  /** Inside the window each extra corner earns `cornerWeight`; above it each
      extra corner costs `cornerWeight` (when the window is not empty). */
  lemma FitnessCornerSlope(p: FitnessParams, m1: MapData, m2: MapData)
    requires ValidParams(p)
    requires m1.obstacleArray == m2.obstacleArray && |m1.path| == |m2.path|
    requires m1.cornersNearEachOther == m2.cornersNearEachOther
    requires p.cornerMin <= p.cornerMax
    ensures p.cornerMin <= |m1.cornersList| <= p.cornerMax && p.cornerMin <= |m2.cornersList| <= p.cornerMax
      ==> CalculateFitness(p, m2) - CalculateFitness(p, m1)
          == (|m2.cornersList| - |m1.cornersList|) * p.cornerWeight
    ensures |m1.cornersList| > p.cornerMax && |m2.cornersList| > p.cornerMax
      ==> CalculateFitness(p, m2) - CalculateFitness(p, m1)
          == -(|m2.cornersList| - |m1.cornersList|) * p.cornerWeight
  {
    var c1, c2 := |m1.cornersList|, |m2.cornersList|;
    assert c2 * p.cornerWeight - c1 * p.cornerWeight == (c2 - c1) * p.cornerWeight;
    assert p.cornerWeight * (c2 - p.cornerMax) - p.cornerWeight * (c1 - p.cornerMax)
           == (c2 - c1) * p.cornerWeight;
  }

  /** With a non-negative path weight the score never drops when the path
      grows and everything else stays the same. */
  lemma FitnessMonotoneInPathLength(p: FitnessParams, m1: MapData, m2: MapData)
    requires ValidParams(p) && p.pathWeight >= 0
    requires m2 == m1.(path := m2.path)
    requires |m1.path| <= |m2.path|
    ensures CalculateFitness(p, m1) <= CalculateFitness(p, m2)
    ensures p.pathWeight >= 1 && |m1.path| < |m2.path| ==> CalculateFitness(p, m1) < CalculateFitness(p, m2)
  {
    assert |m2.path| * p.pathWeight - |m1.path| * p.pathWeight == (|m2.path| - |m1.path|) * p.pathWeight;
  }

  /** With a non-negative near-corner weight the score never rises when
      more corners sit near each other. */
  lemma FitnessAntitoneInNearCorners(p: FitnessParams, m1: MapData, m2: MapData)
    requires ValidParams(p) && p.nearCornerWeight >= 0
    requires m2 == m1.(cornersNearEachOther := m2.cornersNearEachOther)
    requires m1.cornersNearEachOther <= m2.cornersNearEachOther
    ensures CalculateFitness(p, m2) <= CalculateFitness(p, m1)
    ensures CalculateFitness(p, m1) - CalculateFitness(p, m2)
            == (m2.cornersNearEachOther - m1.cornersNearEachOther) * p.nearCornerWeight
  {
    assert m2.cornersNearEachOther * p.nearCornerWeight - m1.cornersNearEachOther * p.nearCornerWeight
           == (m2.cornersNearEachOther - m1.cornersNearEachOther) * p.nearCornerWeight;
  }

  /** The obstacle term lies between zero and the obstacle count for a weight
      in [0, 1] (the inspector range is [0.3, 1]), and is the obstacle count
      itself for weight 1. */
  lemma ObstacleTermBounds(p: FitnessParams, obstacles: seq<bool>)
    requires ValidParams(p) && 0 <= p.obstacleWeightNum <= p.obstacleWeightDen
    ensures 0 <= ObstacleTerm(p, obstacles) <= CountTrue(obstacles)
    ensures p.obstacleWeightNum == p.obstacleWeightDen ==> ObstacleTerm(p, obstacles) == CountTrue(obstacles)
  {
    ScaledTruncBounds(CountTrue(obstacles), p.obstacleWeightNum, p.obstacleWeightDen);
  }

  /** The obstacle term never decreases as the obstacle count grows, for a
      non-negative weight. */
  lemma ObstacleTermMonotone(p: FitnessParams, a: seq<bool>, b: seq<bool>)
    requires ValidParams(p) && 0 <= p.obstacleWeightNum
    requires CountTrue(a) <= CountTrue(b)
    ensures ObstacleTerm(p, a) <= ObstacleTerm(p, b)
  {
    ScaledTruncMonotone(CountTrue(a), CountTrue(b), p.obstacleWeightNum, p.obstacleWeightDen);
  }

  /** A 5 x 5 map with no obstacles, a straight 5-cell path, no corners and
      the serialized default weights scores 5 - 6 = -1: with zero corners
      the corner count is below cornerMin = 6, so the fixed penalty applies. */
  lemma StraightFiveCellPathScore(mapData: MapData)
    requires |mapData.obstacleArray| == 25 && forall i :: 0 <= i < 25 ==> !mapData.obstacleArray[i]
    requires |mapData.path| == 5 && mapData.cornersList == [] && mapData.cornersNearEachOther == 0
    ensures CalculateFitness(DefaultParams, mapData) == -1
    ensures CalculateFitness(DefaultParams.(cornerMin := 0), mapData) == 5
  {
    assert CountTrue(mapData.obstacleArray) == 0;
  }
}
