/** The state of a bot and the parts of its rules that only read and write the
    bot itself: healing and hunger, see distance, vision, the geometry of a
    move, the effects of an attack or a meal, and the deposit it leaves. The
    parts that search or change the grid are in `Simulations`. */
module Bots {
  import opened Wrappers
  import opened Vectors
  import opened RangeValues
  import Protocol
  import Foods

  /** The fields of `BotObject`. `brain` names the bot's brain; `decision`
      and `protocol` are the two records it shares with that brain. */
  datatype BotState = BotState(
    health: Range,
    food: Range,
    seeDistance: int,
    speed: real,
    damage: real,
    brain: nat,
    decision: Protocol.Responce,
    protocol: Protocol.UpdateProtocol)

  /** Health and food lie within their bounds, whenever those bounds are
      well formed. */
  predicate Healthy(b: BotState)
  {
    (b.health.WellFormed() ==> b.health.InRange()) && (b.food.WellFormed() ==> b.food.InRange())
  }

  /** The health check at the start of `update`: a bot at 0 health marks
      itself for deletion (and still acts this tick). */
  predicate Dying(b: BotState)
  {
    b.health.value == 0.0
  }

  /** Whether the bot heals this tick: alive, hurt, and at least half fed. */
  predicate Heals(b: BotState)
  {
    !Dying(b) && b.health.value < b.health.maxValue && b.food.value >= b.food.maxValue / 2.0
  }

  /** The healing step of `update`: 0.1 health for 0.2 food. */
  function Recovered(b: BotState): BotState
  {
    if Heals(b) then b.(health := b.health.Increase(0.1), food := b.food.Decrease(0.2)) else b
  }

  /** The hunger step of `update`: 0.1 food every tick. */
  function Hungry(b: BotState): BotState
  {
    b.(food := b.food.Decrease(0.1))
  }

  /** Healing trades food for health only when the bot heals, and together
      with hunger it keeps health and food within their bounds. */
  lemma VitalsStayInRange(b: BotState)
    requires Healthy(b) && b.health.WellFormed() && b.food.WellFormed()
    ensures Healthy(Recovered(b)) && Healthy(Hungry(Recovered(b)))
    ensures Heals(b) ==> Recovered(b).health.value == Min(b.health.value + 0.1, b.health.maxValue)
    ensures Heals(b) ==> Recovered(b).food.value == Max(b.food.value - 0.2, b.food.minValue)
    ensures !Heals(b) ==> Recovered(b) == b
    ensures Hungry(b).food.value == Max(b.food.value - 0.1, b.food.minValue)
  {
    StepsStayInRange(b.health, 0.1);
    StepsStayInRange(b.food, 0.2);
    StepsStayInRange(Recovered(b).food, 0.1);
  }

  /** `getSeeDistance`: the bot's see distance times its chunk's multiplier,
      truncated to an integer, capped at the simulation's maximum. */
  function GetSeeDistance(seeDistance: int, multiplier: real, maxSeeDistance: int): (d: int)
    ensures d <= maxSeeDistance
    ensures d == maxSeeDistance || d == Trunc(seeDistance as real * multiplier)
    ensures d <= Trunc(seeDistance as real * multiplier)
  {
    if Trunc(seeDistance as real * multiplier) <= maxSeeDistance then Trunc(seeDistance as real * multiplier)
    else maxSeeDistance
  }

  /** With the default multiplier of 1, the see distance is the bot's own,
      capped at the maximum. */
  lemma SeeDistanceAtDefaultMultiplier(seeDistance: int, maxSeeDistance: int)
    ensures GetSeeDistance(seeDistance, 1.0, maxSeeDistance) == if seeDistance <= maxSeeDistance then seeDistance else maxSeeDistance
  {
  }

  /** `isInVision`: inclusive, squared distance at most the squared see
      distance. */
  predicate IsInVision(pos: Vec2, other: Vec2, sqrSeeDistance: int)
  {
    pos.SqrDistanceTo(other) <= sqrSeeDistance as real
  }

  /** The perception rule of `packProtocol`: strictly closer than the see
      distance. */
  predicate Perceives(pos: Vec2, other: Vec2, sqrSeeDistance: int)
  {
    pos.SqrDistanceTo(other) < sqrSeeDistance as real
  }

  /** What `packProtocol` perceives is in vision, but a point exactly at the
      see distance is in vision and not perceived. */
  lemma PerceptionIsStricter(pos: Vec2, other: Vec2, sqrSeeDistance: int)
    ensures Perceives(pos, other, sqrSeeDistance) ==> IsInVision(pos, other, sqrSeeDistance)
    ensures pos.SqrDistanceTo(other) == sqrSeeDistance as real ==>
      IsInVision(pos, other, sqrSeeDistance) && !Perceives(pos, other, sqrSeeDistance)
  {
  }

  /** The food spent by `actionMove`: 0.1 times the clamped multiplier. */
  function MoveCost(speedMultiplier: real): real
  {
    0.1 * Clamp(speedMultiplier, 0.0, 1.0)
  }

  /** Where `actionMove` puts the bot: along the normalised direction, by the
      speed times the multiplier clamped to [0, 1], then clamped to the map. */
  function MovedPosition(pos: Vec2, direction: Vec2, speed: real, speedMultiplier: real,
                         mapWidth: real, mapHeight: real, sqrt: real -> real): (p: Vec2)
    ensures 0.0 <= mapWidth ==> 0.0 <= p.x <= mapWidth
    ensures 0.0 <= mapHeight ==> 0.0 <= p.y <= mapHeight
  {
    var d := direction.Normalize(sqrt);
    var m := Clamp(speedMultiplier, 0.0, 1.0);
    Vec2(Clamp(pos.x + d.x * speed * m, 0.0, mapWidth), Clamp(pos.y + d.y * speed * m, 0.0, mapHeight))
  }

  /** The multiplier `actionGoTo` passes on: the distance to the target over
      the speed. At speed 0 that is +infinity, which the clamp turns into 1,
      unless the distance is 0 too: then it is NaN. */
  function GoToMultiplier(delta: Vec2, speed: real, sqrt: real -> real): Result<real>
  {
    var len := delta.Length(sqrt);
    if speed != 0.0 then Ok(len / speed)
    else if len != 0.0 then Ok(1.0)
    else Err(NotANumber)
  }

  /** `actionGoTo` with a positive speed never produces NaN, and a target
      within one step (and on the map) is reached exactly. */
  lemma GoToReachesNearTarget(pos: Vec2, target: Vec2, speed: real, w: real, h: real, sqrt: real -> real)
    requires SqrtSound(sqrt) && speed > 0.0
    requires target.Sub(pos).Length(sqrt) != 0.0 && target.Sub(pos).Length(sqrt) <= speed
    requires 0.0 <= target.x <= w && 0.0 <= target.y <= h
    ensures GoToMultiplier(target.Sub(pos), speed, sqrt).Ok?
    ensures MovedPosition(pos, target.Sub(pos), speed, GoToMultiplier(target.Sub(pos), speed, sqrt).value, w, h, sqrt) == target
  {
    var delta := target.Sub(pos);
    var len := delta.Length(sqrt);
    LengthNonNeg(delta, sqrt);
    var m := len / speed;
    assert m <= 1.0 by { DivAtMostOneReal(len, speed); }
    assert 0.0 <= m by { DivNonNeg(len, speed); }
    assert m * speed == len;
    var d := delta.Normalize(sqrt);
    StepCancels(delta.x, d.x, len, speed, m);
    StepCancels(delta.y, d.y, len, speed, m);
  }

  /** A target farther than one step gets a full-speed step along the
      direction to it. */
  lemma GoToStepsTowardFarTarget(pos: Vec2, target: Vec2, speed: real, w: real, h: real, sqrt: real -> real)
    requires speed > 0.0 && target.Sub(pos).Length(sqrt) > speed
    ensures GoToMultiplier(target.Sub(pos), speed, sqrt).Ok?
    ensures var d := target.Sub(pos).Normalize(sqrt);
      MovedPosition(pos, target.Sub(pos), speed, GoToMultiplier(target.Sub(pos), speed, sqrt).value, w, h, sqrt)
        == Vec2(Clamp(pos.x + d.x * speed * 1.0, 0.0, w), Clamp(pos.y + d.y * speed * 1.0, 0.0, h))
  {
    DivAboveOne(target.Sub(pos).Length(sqrt), speed);
  }

  /** A target at the bot's own position asks for a zero multiplier at a
      positive speed, and for NaN at speed 0. */
  lemma GoToOwnPosition(speed: real, sqrt: real -> real)
    requires SqrtSound(sqrt)
    ensures speed > 0.0 ==> GoToMultiplier(Zero, speed, sqrt) == Ok(0.0)
    ensures speed == 0.0 ==> GoToMultiplier(Zero, speed, sqrt) == Err(NotANumber)
  {
    NormalizeZero(sqrt);
    if speed > 0.0 {
      ZeroOverPositive(Zero.Length(sqrt), speed);
    }
  }

  /** A zero move leaves a bot on the map where it is. */
  lemma ZeroMoveStays(pos: Vec2, speed: real, w: real, h: real, sqrt: real -> real)
    requires SqrtSound(sqrt) && 0.0 <= pos.x <= w && 0.0 <= pos.y <= h
    ensures MovedPosition(pos, Zero, speed, 0.0, w, h, sqrt) == pos
  {
    NormalizeZero(sqrt);
  }

  lemma ZeroOverPositive(a: real, s: real)
    requires a == 0.0 && s > 0.0
    ensures a / s == 0.0
  {
  }

  lemma LengthNonNeg(v: Vec2, sqrt: real -> real)
    requires SqrtSound(sqrt)
    ensures 0.0 <= v.Length(sqrt)
  {
    SumOfSquares(v.x, v.y);
  }

  lemma SumOfSquares(x: real, y: real)
    ensures 0.0 <= x * x + y * y
  {
  }

  lemma DivAtMostOneReal(a: real, s: real)
    requires 0.0 <= a <= s && s > 0.0
    ensures a / s <= 1.0
  {
  }

  lemma DivNonNeg(a: real, s: real)
    requires 0.0 <= a && s > 0.0
    ensures 0.0 <= a / s
  {
  }

  lemma DivAboveOne(a: real, s: real)
    requires a > s > 0.0
    ensures a / s > 1.0
  {
  }

  /** `(a / len) · speed · (len / speed) = a`. */
  lemma StepCancels(a: real, q: real, len: real, speed: real, m: real)
    requires len != 0.0 && speed != 0.0 && q == a / len && m * speed == len
    ensures q * speed * m == a
  {
    assert q * len == a;
    assert q * speed * m == q * (m * speed);
  }

  /** `rawAttack` on the target: its health drops by the attacker's damage. */
  function Attacked(target: BotState, damage: real): BotState
  {
    target.(health := target.health.Decrease(damage))
  }

  /** `rawAttack` on the attacker: 0.4 food. */
  function AttackPaid(b: BotState): BotState
  {
    b.(food := b.food.Decrease(0.4))
  }

  /** How much `rawEat` asks the food for: a twentieth of the bot's maximum
      food, but at least 5. */
  function BiteSize(b: BotState): (r: real)
    ensures r >= 5.0 && r >= b.food.maxValue / 20.0
    ensures r == 5.0 || r == b.food.maxValue / 20.0
  {
    Max(5.0, b.food.maxValue / 20.0)
  }

  /** `rawEat` on the bot: 0.1 food for chewing, then whatever the food gave. */
  function Fed(b: BotState, eatenCalories: real): BotState
  {
    b.(food := b.food.Decrease(0.1).Increase(eatenCalories))
  }

  /** An attack and a meal keep every bot's health and food within bounds,
      however large the damage or the meal. */
  lemma EffectsStayInRange(b: BotState, damage: real, eatenCalories: real)
    requires Healthy(b)
    ensures Healthy(Attacked(b, damage)) && Healthy(AttackPaid(b)) && Healthy(Fed(b, eatenCalories))
    ensures b.food.WellFormed() ==> Fed(b, eatenCalories).food.value <= b.food.maxValue
  {
    if b.health.WellFormed() {
      StepsStayInRange(b.health, damage);
    }
    if b.food.WellFormed() {
      StepsStayInRange(b.food, 0.4);
      StepsStayInRange(b.food, 0.1);
      StepsStayInRange(b.food.Decrease(0.1), eatenCalories);
    }
  }

  /** `onDestroy`: the calories a dead bot leaves behind. */
  function DepositCalories(b: BotState): real
  {
    b.health.maxValue * 0.3 + b.food.value * 0.7
  }

  /** The food deposit of `onDestroy`: already mature, full, not growing, and
      decaying by 5 per tick. */
  function Deposit(b: BotState): (f: Foods.FoodState)
    ensures f.isMature && f.calories == f.maxCalories == DepositCalories(b)
    ensures f.growthRate == 0.0 && f.decayRate == 5.0
  {
    Foods.FoodState(DepositCalories(b), 0.0, 5.0, true, DepositCalories(b))
  }

  /** A deposit holds at least 30% of the bot's maximum health when its food
      is not negative, and decays away within `n` ticks once its calories are
      at most `5·n`. */
  lemma DepositLasts(b: BotState, n: nat)
    requires b.food.value >= 0.0 && n >= 1 && DepositCalories(b) <= n as real * 5.0
    ensures Deposit(b).calories >= b.health.maxValue * 0.3
    ensures Foods.ExpiresWithin(Deposit(b), n)
  {
    Foods.MatureFoodExpires(Deposit(b), n);
  }

  /** The shadow `update` publishes before perceiving. */
  function Shadow(id: nat, b: BotState, seeDistance: int, pos: Vec2): Protocol.BotShadow
  {
    Protocol.BotShadow(id, b.health.value, b.food.value, seeDistance, b.speed, b.damage, pos)
  }
}
