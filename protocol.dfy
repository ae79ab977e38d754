/** The records a bot and its brain exchange: the decision record the brain
    writes through setters (`UpdateProtocolResponce`), the perception record
    the bot fills before asking (`UpdateProtocol`), and the records of a
    brain's start-up allocation (`InitProtocol`). */
module Protocol {
  import opened Wrappers
  import opened Vectors

  /** `BotAction`, in declared order. */
  datatype BotAction =
    | DoNothing | Move | GoTo | EatNearest | EatByID
    | AttackNearest | AttackByID | Spawn | SpawnSelfCopy | Suicide

  /** The integer an enumerator converts to. */
  function Code(a: BotAction): int
  {
    match a
    case DoNothing => 0
    case Move => 1
    case GoTo => 2
    case EatNearest => 3
    case EatByID => 4
    case AttackNearest => 5
    case AttackByID => 6
    case Spawn => 7
    case SpawnSelfCopy => 8
    case Suicide => 9
  }

  /** The enumerator an integer names, if any. */
  function FromCode(n: int): Option<BotAction>
  {
    if n == 0 then Some(DoNothing)
    else if n == 1 then Some(Move)
    else if n == 2 then Some(GoTo)
    else if n == 3 then Some(EatNearest)
    else if n == 4 then Some(EatByID)
    else if n == 5 then Some(AttackNearest)
    else if n == 6 then Some(AttackByID)
    else if n == 7 then Some(Spawn)
    else if n == 8 then Some(SpawnSelfCopy)
    else if n == 9 then Some(Suicide)
    else None
  }

  /** The enumerators are numbered 0 to 9 without gaps or repeats, which is
      what the integer switch of the bot relies on. */
  lemma CodesAreDense(a: BotAction, n: int)
    ensures 0 <= Code(a) <= 9
    ensures FromCode(Code(a)) == Some(a)
    ensures FromCode(n).Some? <==> 0 <= n <= 9
    ensures FromCode(n).Some? ==> Code(FromCode(n).value) == n
  {
  }

  /** The fields of `UpdateProtocolResponce`. The argument structs without
      members are left out; `attackOwnKind`, which the bot reads from the
      attack structs but which the record does not declare, is taken to be
      false. */
  datatype Responce = Responce(
    actionType: BotAction,
    moveDirection: Vec2,
    moveSpeedMultiplier: real,
    goToTargetPosition: Vec2,
    eatObjectID: nat,
    attackTargetID: nat)
  {
    function ActionDoNothing(): Responce { this.(actionType := DoNothing) }
    /** The multiplier is stored as given: the range [0, 1] is only documented. */
    function ActionMove(direction: Vec2, speedMultiplier: real): Responce
    {
      this.(actionType := Move, moveDirection := direction, moveSpeedMultiplier := speedMultiplier)
    }
    function ActionGoTo(targetPosition: Vec2): Responce
    {
      this.(actionType := GoTo, goToTargetPosition := targetPosition)
    }
    function ActionEatNearest(): Responce { this.(actionType := EatNearest) }
    function ActionEatByID(objectID: nat): Responce
    {
      this.(actionType := EatByID, eatObjectID := objectID)
    }
    function ActionAttackNearest(): Responce { this.(actionType := AttackNearest) }
    function ActionAttackByID(targetID: nat): Responce
    {
      this.(actionType := AttackByID, attackTargetID := targetID)
    }
    function ActionSpawnSelfCopy(): Responce { this.(actionType := SpawnSelfCopy) }
    function ActionSuicide(): Responce { this.(actionType := Suicide) }
  }

  /** What the bot does with a decision record, once parsed. A target ID of
      ULONG_MAX means "the nearest one". */
  datatype Action =
    | NoAction
    | MoveAction(direction: Vec2, speedMultiplier: real)
    | GoToAction(targetPosition: Vec2)
    | EatAction(targetID: nat)
    | AttackAction(attackOwnKind: bool, targetID: nat)
    | SuicideAction

  /** ULONG_MAX, the "no particular target" ID. */
  const NearestTarget: nat := 0xFFFF_FFFF_FFFF_FFFF

  /** `BotObject::parseProtocolResponce`: the switch on the action type.
      `Spawn` and `SpawnSelfCopy` have no case and reach the default, which
      throws `invalid_argument`. */
  function ParseProtocolResponce(r: Responce): Result<Action>
  {
    match r.actionType
    case DoNothing => Ok(NoAction)
    case Move => Ok(MoveAction(r.moveDirection, r.moveSpeedMultiplier))
    case GoTo => Ok(GoToAction(r.goToTargetPosition))
    case EatNearest => Ok(EatAction(NearestTarget))
    case EatByID => Ok(EatAction(r.eatObjectID))
    case AttackNearest => Ok(AttackAction(false, NearestTarget))
    case AttackByID => Ok(AttackAction(false, r.attackTargetID))
    case Suicide => Ok(SuicideAction)
    case Spawn => Err(InvalidArgument)
    case SpawnSelfCopy => Err(InvalidArgument)
  }

  /** Parsing fails exactly for the two spawn actions, with
      `invalid_argument`. */
  lemma ParseFailsOnlyOnSpawn(r: Responce)
    ensures ParseProtocolResponce(r).Err? <==> r.actionType in {Spawn, SpawnSelfCopy}
    ensures ParseProtocolResponce(r).Err? ==> ParseProtocolResponce(r).error == InvalidArgument
  {
  }

  /** Every setter followed by the bot's parse yields that setter's action
      with that setter's arguments, whatever the record held before: the last
      setter called wins. */
  lemma SetterThenParse(r: Responce, d: Vec2, m: real, t: Vec2, id: nat)
    ensures ParseProtocolResponce(r.ActionDoNothing()) == Ok(NoAction)
    ensures ParseProtocolResponce(r.ActionMove(d, m)) == Ok(MoveAction(d, m))
    ensures ParseProtocolResponce(r.ActionGoTo(t)) == Ok(GoToAction(t))
    ensures ParseProtocolResponce(r.ActionEatNearest()) == Ok(EatAction(NearestTarget))
    ensures ParseProtocolResponce(r.ActionEatByID(id)) == Ok(EatAction(id))
    ensures ParseProtocolResponce(r.ActionAttackNearest()) == Ok(AttackAction(false, NearestTarget))
    ensures ParseProtocolResponce(r.ActionAttackByID(id)) == Ok(AttackAction(false, id))
    ensures ParseProtocolResponce(r.ActionSpawnSelfCopy()) == Err(InvalidArgument)
    ensures ParseProtocolResponce(r.ActionSuicide()) == Ok(SuicideAction)
  {
  }

  /** A setter leaves the arguments of the other actions as they were, so
      they are still there when a later setter selects that action again
      without arguments of its own. */
  lemma SettersKeepOtherArguments(r: Responce, d: Vec2, m: real, t: Vec2, id: nat)
    ensures r.ActionMove(d, m).ActionGoTo(t).ActionSuicide().moveDirection == d
    ensures r.ActionEatByID(id).ActionAttackByID(id + 1).eatObjectID == id
    ensures r.ActionGoTo(t).ActionMove(d, m).goToTargetPosition == t
    ensures r.ActionAttackByID(id).ActionEatNearest().attackTargetID == id
  {
  }

  /** The long-lived decision record of one bot. Its constructor initialises
      nothing, so the record starts as whatever `initial` holds; the bot never
      resets it between ticks. */
  class UpdateProtocolResponce {
    var actionType: BotAction
    var moveDirection: Vec2
    var moveSpeedMultiplier: real
    var goToTargetPosition: Vec2
    var eatObjectID: nat
    var attackTargetID: nat

    function State(): Responce
      reads this
    {
      Responce(actionType, moveDirection, moveSpeedMultiplier, goToTargetPosition, eatObjectID, attackTargetID)
    }

    constructor (initial: Responce)
      ensures State() == initial
    {
      actionType := initial.actionType;
      moveDirection := initial.moveDirection;
      moveSpeedMultiplier := initial.moveSpeedMultiplier;
      goToTargetPosition := initial.goToTargetPosition;
      eatObjectID := initial.eatObjectID;
      attackTargetID := initial.attackTargetID;
    }

    method ActionDoNothing()
      modifies this
      ensures State() == old(State()).ActionDoNothing()
    {
      actionType := DoNothing;
    }

    method ActionMove(direction: Vec2, speedMultiplier: real)
      modifies this
      ensures State() == old(State()).ActionMove(direction, speedMultiplier)
    {
      actionType := Move;
      moveDirection := direction;
      moveSpeedMultiplier := speedMultiplier;
    }

    method ActionGoTo(targetPosition: Vec2)
      modifies this
      ensures State() == old(State()).ActionGoTo(targetPosition)
    {
      actionType := GoTo;
      goToTargetPosition := targetPosition;
    }

    method ActionEatNearest()
      modifies this
      ensures State() == old(State()).ActionEatNearest()
    {
      actionType := EatNearest;
    }

    method ActionEatByID(objectID: nat)
      modifies this
      ensures State() == old(State()).ActionEatByID(objectID)
    {
      actionType := EatByID;
      eatObjectID := objectID;
    }

    method ActionAttackNearest()
      modifies this
      ensures State() == old(State()).ActionAttackNearest()
    {
      actionType := AttackNearest;
    }

    method ActionAttackByID(targetID: nat)
      modifies this
      ensures State() == old(State()).ActionAttackByID(targetID)
    {
      actionType := AttackByID;
      attackTargetID := targetID;
    }

    method ActionSpawnSelfCopy()
      modifies this
      ensures State() == old(State()).ActionSpawnSelfCopy()
    {
      actionType := SpawnSelfCopy;
    }

    method ActionSuicide()
      modifies this
      ensures State() == old(State()).ActionSuicide()
    {
      actionType := Suicide;
    }
  }

  /** The bot's own shadow: the stats it publishes to its brain. */
  datatype BotShadow = BotShadow(
    id: nat, health: real, food: real, seeDistance: int, speed: real, damage: real, pos: Vec2)

  /** `UpdateProtocol`: what the bot perceives. Other objects are named by
      their IDs; a distance of -1 stands for "none in vision". The last-action
      fields are never written by the simulation and are left out. */
  datatype UpdateProtocol = UpdateProtocol(
    body: Option<BotShadow>,
    visibleObjects: set<nat>,
    nearestBot: Option<nat>,
    distanceToNearestBot: real,
    nearestEnemy: Option<nat>,
    distanceToNearestEnemy: real,
    nearestFood: Option<nat>,
    distanceToNearestFood: real,
    nearestTree: Option<nat>,
    distanceToNearestTree: real)

  /** The documented meaning of the sentinels: each distance is -1 exactly
      when the matching nearest object is absent. */
  predicate SentinelsAgree(p: UpdateProtocol)
  {
    && (p.distanceToNearestBot == -1.0 <==> p.nearestBot.None?)
    && (p.distanceToNearestEnemy == -1.0 <==> p.nearestEnemy.None?)
    && (p.distanceToNearestFood == -1.0 <==> p.nearestFood.None?)
    && (p.distanceToNearestTree == -1.0 <==> p.nearestTree.None?)
  }

  /** A fresh perception record before the bot has looked around. */
  const EmptyProtocol := UpdateProtocol(None, {}, None, -1.0, None, -1.0, None, -1.0, None, -1.0)

  /** `InitProtocol`: where the bot will spawn and how many points it may spend. */
  datatype InitProtocol = InitProtocol(botSpawnPosition: Vec2, evolutionPoints: int)

  /** `InitProtocolResponce`: the brain's allocation of points and its colour. */
  datatype InitProtocolResponce = InitProtocolResponce(
    healthPoints: int, foodPoints: int, visionPoints: int, speedPoints: int, attackPoints: int,
    r: int, g: int, b: int)

  /** A brain, as the simulation sees it: `init` answers the start-up record
      and `update` turns what the bot perceives, and the decision record as
      the previous tick left it, into this tick's decision record.
      `initialDecision` is what the brain's decision record holds before
      anything writes it. Brains are told apart by an index. */
  datatype Brains = Brains(
    init: (nat, InitProtocol) -> InitProtocolResponce,
    update: (nat, UpdateProtocol, Responce) -> Responce,
    initialDecision: nat -> Responce)
}
