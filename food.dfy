/** The state of a food object and its per-tick rule: it grows to its
    maximum, becomes mature, then decays and asks to be deleted. */
module Foods {

  /** The fields of `FoodObject`. */
  datatype FoodState = FoodState(
    maxCalories: real,
    growthRate: real,
    decayRate: real,
    isMature: bool,
    calories: real)

  /** The state after one `update`. Immature food grows and, on reaching its
      maximum, is capped there and matures; mature food decays. */
  function FoodUpdated(f: FoodState): FoodState
  {
    if !f.isMature then
      if f.calories + f.growthRate >= f.maxCalories then
        f.(calories := f.maxCalories, isMature := true)
      else
        f.(calories := f.calories + f.growthRate)
    else
      f.(calories := f.calories - f.decayRate)
  }

  /** Whether that `update` marks the food for deletion: only mature food
      whose calories have fallen to 0 or below. */
  predicate FoodExpires(f: FoodState)
  {
    f.isMature && f.calories - f.decayRate <= 0.0
  }

  /** Immature food never goes above its maximum, and it matures exactly when
      it reaches the maximum, at which point it holds exactly the maximum. */
  lemma GrowthIsCapped(f: FoodState)
    requires !f.isMature
    ensures FoodUpdated(f).calories <= f.maxCalories
    ensures FoodUpdated(f).isMature <==> f.calories + f.growthRate >= f.maxCalories
    ensures FoodUpdated(f).isMature ==> FoodUpdated(f).calories == f.maxCalories
    ensures !FoodExpires(f)
  {
  }

  /** Mature food stays mature and loses exactly its decay rate per tick; it
      expires exactly when the result is at most 0. Nothing but the calories
      and the maturity flag ever changes. */
  lemma DecayIsFinal(f: FoodState)
    ensures f.isMature ==> FoodUpdated(f).isMature && FoodUpdated(f).calories == f.calories - f.decayRate
    ensures FoodExpires(f) <==> f.isMature && FoodUpdated(f).calories <= 0.0
    ensures FoodUpdated(f).maxCalories == f.maxCalories && FoodUpdated(f).growthRate == f.growthRate
    ensures FoodUpdated(f).decayRate == f.decayRate
  {
  }

  /** Whether some update among the next `n` marks the food for deletion. */
  predicate ExpiresWithin(f: FoodState, n: nat)
    decreases n
  {
    n > 0 && (FoodExpires(f) || ExpiresWithin(FoodUpdated(f), n - 1))
  }

  /** Mature food with a positive decay rate whose calories are at most
      `n · decayRate` marks itself for deletion within `n` updates. */
  lemma {:induction false} MatureFoodExpires(f: FoodState, n: nat)
    requires f.isMature && f.decayRate > 0.0 && n >= 1
    requires f.calories <= n as real * f.decayRate
    ensures ExpiresWithin(f, n)
    decreases n
  {
    if !FoodExpires(f) {
      var g := FoodUpdated(f);
      Shift(n, f.decayRate);
      assert g.calories <= (n - 1) as real * f.decayRate;
      if n == 1 {
        assert false;
      }
      MatureFoodExpires(g, n - 1);
    }
  }

  lemma Shift(n: int, d: real)
    ensures n as real * d - d == (n - 1) as real * d
  {
  }

  /** Food that starts at or below its maximum never exceeds it, over any
      number of updates, provided decay does not add calories. */
  lemma {:induction false} NeverAboveMaximum(f: FoodState, n: nat)
    requires f.calories <= f.maxCalories && f.decayRate >= 0.0
    ensures Iterate(f, n).calories <= f.maxCalories
    ensures Iterate(f, n).maxCalories == f.maxCalories && Iterate(f, n).decayRate == f.decayRate
  {
    if n > 0 {
      NeverAboveMaximum(f, n - 1);
      var g := Iterate(f, n - 1);
      if !g.isMature {
        GrowthIsCapped(g);
      }
    }
  }

  /** The state after `n` updates. */
  function Iterate(f: FoodState, n: nat): FoodState
  {
    if n == 0 then f else FoodUpdated(Iterate(f, n - 1))
  }
}
