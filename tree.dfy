/** The state of a tree and its per-tick rule: a cooldown that counts down by
    one per update and, once it is used up, a ring of fruit and a reset. */
module Trees {
  import Foods

  /** The fields of `TreeObject`. */
  datatype TreeState = TreeState(
    foodMaxCalories: real,
    foodGrowthRate: real,
    foodDecayRate: real,
    foodIsMature: bool,
    foodSpawnCooldown: real,
    foodSpawnCooldownMax: real,
    numberOfFruits: int)

  /** `TreeObject` as constructed: the cooldown starts at its maximum. */
  function NewTree(numberOfFruits: int, foodMaxCalories: real, foodGrowthRate: real,
                   foodDecayRate: real, foodSpawnCooldownMax: real, foodIsMature: bool): (t: TreeState)
    ensures t.foodSpawnCooldown == t.foodSpawnCooldownMax == foodSpawnCooldownMax
    ensures t.numberOfFruits == numberOfFruits
  {
    TreeState(foodMaxCalories, foodGrowthRate, foodDecayRate, foodIsMature,
              foodSpawnCooldownMax, foodSpawnCooldownMax, numberOfFruits)
  }

  /** `getRadius`: grows with the number of fruits. */
  function TreeRadius(t: TreeState): int
  {
    10 + t.numberOfFruits * 2
  }

  /** Whether this `update` calls `spawnFood`: only once the cooldown is used up. */
  predicate Spawns(t: TreeState)
  {
    !(t.foodSpawnCooldown > 0.0)
  }

  /** The state after one `update`. */
  function TreeUpdated(t: TreeState): TreeState
  {
    if t.foodSpawnCooldown > 0.0 then t.(foodSpawnCooldown := t.foodSpawnCooldown - 1.0)
    else t.(foodSpawnCooldown := t.foodSpawnCooldownMax)
  }

  /** Each fruit of `spawnFood`: the tree's food settings, starting at a tenth
      of the maximum calories. */
  function Fruit(t: TreeState): (f: Foods.FoodState)
    ensures f.maxCalories == t.foodMaxCalories && f.calories == t.foodMaxCalories * 0.1
    ensures f.growthRate == t.foodGrowthRate && f.decayRate == t.foodDecayRate
    ensures f.isMature == t.foodIsMature
  {
    Foods.FoodState(t.foodMaxCalories, t.foodGrowthRate, t.foodDecayRate, t.foodIsMature, t.foodMaxCalories * 0.1)
  }

  /** The state after `n` updates, and how many of them spawned fruit. */
  function Ticks(t: TreeState, n: nat): (TreeState, nat)
  {
    if n == 0 then (t, 0)
    else
      var (s, k) := Ticks(t, n - 1);
      (TreeUpdated(s), if Spawns(s) then k + 1 else k)
  }

  /** Only the cooldown changes; it drops by one while positive, and a spawn
      resets it to the maximum. */
  lemma UpdateRule(t: TreeState)
    ensures TreeUpdated(t).(foodSpawnCooldown := t.foodSpawnCooldown) == t
    ensures !Spawns(t) ==> TreeUpdated(t).foodSpawnCooldown == t.foodSpawnCooldown - 1.0
    ensures Spawns(t) ==> TreeUpdated(t).foodSpawnCooldown == t.foodSpawnCooldownMax
  {
  }

  /** `a + b` updates are `a` updates followed by `b`. */
  lemma {:induction false} TicksAdd(t: TreeState, a: nat, b: nat)
    ensures Ticks(t, a + b).0 == Ticks(Ticks(t, a).0, b).0
    ensures Ticks(t, a + b).1 == Ticks(t, a).1 + Ticks(Ticks(t, a).0, b).1
    decreases b
  {
    if b > 0 {
      TicksAdd(t, a, b - 1);
      assert a + b - 1 == a + (b - 1);
    }
  }

  /** A whole cooldown of `j` updates passes without fruit and uses it up. */
  lemma {:induction false} CountDown(t: TreeState, j: nat)
    requires t.foodSpawnCooldown == j as real
    ensures Ticks(t, j) == (t.(foodSpawnCooldown := 0.0), 0)
    decreases j
  {
    if j > 0 {
      var u := TreeUpdated(t);
      assert Ticks(t, 1) == (u, 0);
      CountDown(u, j - 1);
      TicksAdd(t, 1, j - 1);
    }
  }

  /** From a fresh tree whose cooldown maximum is a whole number `m`, the first
      `m` updates spawn nothing, update `m + 1` spawns, and the tree is back
      where it started: fruit comes every `m + 1` updates. */
  lemma TreeCycle(t: TreeState, m: nat)
    requires t.foodSpawnCooldown == t.foodSpawnCooldownMax == m as real
    ensures Ticks(t, m).1 == 0 && Spawns(Ticks(t, m).0)
    ensures Ticks(t, m + 1) == (t, 1)
  {
    CountDown(t, m);
  }

  /** After `k` cycles of `m + 1` updates, fruit was spawned exactly `k` times
      and the tree is as it was. */
  lemma {:induction false} TreePeriod(t: TreeState, m: nat, k: nat)
    requires t.foodSpawnCooldown == t.foodSpawnCooldownMax == m as real
    ensures Ticks(t, k * (m + 1)) == (t, k)
    decreases k
  {
    if k > 0 {
      TreePeriod(t, m, k - 1);
      TreeCycle(t, m);
      assert k * (m + 1) == (k - 1) * (m + 1) + (m + 1);
      TicksAdd(t, (k - 1) * (m + 1), m + 1);
    }
  }
}
