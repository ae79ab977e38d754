/** EvolutionPointsSettings: the linear conversion of a brain's stat points
    into starting stats, with the defaults a simulation is built with. */
module EvolutionPoints {

  datatype Settings = Settings(
    amountOfPoints: int,
    healthForPoint: real,
    foodForPoint: real,
    visionDistanceForPoint: int,
    speedForPoint: real,
    damageForPoint: real,
    maxSeeDistanceSizeOfChunk: real)
  {
    function PointsToHealth(points: int): real { points as real * healthForPoint }
    function PointsToFood(points: int): real { points as real * foodForPoint }
    /** The vision conversion is integer multiplication. */
    function PointsToVisionDistance(points: int): int { points * visionDistanceForPoint }
    function PointsToSpeed(points: int): real { points as real * speedForPoint }
    function PointsToDamage(points: int): real { points as real * damageForPoint }

    predicate NonNegativeRates()
    {
      healthForPoint >= 0.0 && foodForPoint >= 0.0 && visionDistanceForPoint >= 0
      && speedForPoint >= 0.0 && damageForPoint >= 0.0
    }
  }

  /** The constructor's default arguments: 100 points, 5 health, 5 food and 5
      vision per point, 0.3 speed and 1 damage per point, and a vision cap of
      0.95 of a chunk. */
  const Default := Settings(100, 5.0, 5.0, 5, 0.3, 1.0, 0.95)

  /** Zero points give a zero stat, and spending `p + q` points gives the sum
      of spending `p` and `q` separately. */
  lemma ConversionsAreAdditive(s: Settings, p: int, q: int)
    ensures s.PointsToHealth(0) == 0.0 && s.PointsToFood(0) == 0.0
    ensures s.PointsToVisionDistance(0) == 0
    ensures s.PointsToSpeed(0) == 0.0 && s.PointsToDamage(0) == 0.0
    ensures s.PointsToHealth(p + q) == s.PointsToHealth(p) + s.PointsToHealth(q)
    ensures s.PointsToFood(p + q) == s.PointsToFood(p) + s.PointsToFood(q)
    ensures s.PointsToVisionDistance(p + q) == s.PointsToVisionDistance(p) + s.PointsToVisionDistance(q)
    ensures s.PointsToSpeed(p + q) == s.PointsToSpeed(p) + s.PointsToSpeed(q)
    ensures s.PointsToDamage(p + q) == s.PointsToDamage(p) + s.PointsToDamage(q)
  {
    RealDistributes(p as real, q as real, s.healthForPoint);
    RealDistributes(p as real, q as real, s.foodForPoint);
    RealDistributes(p as real, q as real, s.speedForPoint);
    RealDistributes(p as real, q as real, s.damageForPoint);
    assert (p + q) * s.visionDistanceForPoint == p * s.visionDistanceForPoint + q * s.visionDistanceForPoint;
  }

  lemma RealDistributes(a: real, b: real, k: real)
    ensures (a + b) * k == a * k + b * k
  {
  }

  /** With non-negative rates, spending more points never gives a smaller
      stat; the defaults have non-negative rates. */
  lemma ConversionsAreMonotone(s: Settings, p: int, q: int)
    requires s.NonNegativeRates() && p <= q
    ensures s.PointsToHealth(p) <= s.PointsToHealth(q)
    ensures s.PointsToFood(p) <= s.PointsToFood(q)
    ensures s.PointsToVisionDistance(p) <= s.PointsToVisionDistance(q)
    ensures s.PointsToSpeed(p) <= s.PointsToSpeed(q)
    ensures s.PointsToDamage(p) <= s.PointsToDamage(q)
  {
    ConversionsAreAdditive(s, p, q - p);
    RealNonNegProduct((q - p) as real, s.healthForPoint);
    RealNonNegProduct((q - p) as real, s.foodForPoint);
    RealNonNegProduct((q - p) as real, s.speedForPoint);
    RealNonNegProduct((q - p) as real, s.damageForPoint);
    assert (q - p) * s.visionDistanceForPoint >= 0;
  }

  lemma RealNonNegProduct(a: real, b: real)
    requires a >= 0.0 && b >= 0.0
    ensures a * b >= 0.0
  {
  }

  /** The default rates are non-negative, so the defaults convert monotonically;
      the full default budget buys 500 health. */
  lemma DefaultRates()
    ensures Default.NonNegativeRates()
    ensures Default.PointsToHealth(Default.amountOfPoints) == 500.0
    ensures Default.PointsToVisionDistance(Default.amountOfPoints) == 500
    ensures Default.PointsToSpeed(10) == 3.0
  {
  }
}
