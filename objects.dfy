/** What every simulation object has in common: its kind, its position, its
    radius, its back-pointer to a chunk; and the kind-specific state. */
module Objects {
  import opened Wrappers
  import opened Vectors
  import Chunks
  import Foods
  import Trees
  import Bots

  /** `SimulationObjectType`, in declared order. */
  datatype ObjectType = BaseObject | BotObject | FoodObject | TreeObject

  /** `SimulationObjectTypeNames`, one name per enumerator in the same order. */
  const TypeNames: seq<string> := ["BaseObject", "BotObject", "FoodObject", "TreeObject"]

  /** `static_cast<int>` of an enumerator. */
  function Ordinal(t: ObjectType): int
  {
    match t
    case BaseObject => 0
    case BotObject => 1
    case FoodObject => 2
    case TreeObject => 3
  }

  /** `getTypeString`: the name array indexed by the enumerator. */
  function GetTypeString(t: ObjectType): string
  {
    TypeNames[Ordinal(t)]
  }

  /** The lookup is within the array for every enumerator, each kind gets its
      own name, and the name is the enumerator's own spelling. */
  lemma TypeStringsAreDistinct(t: ObjectType, u: ObjectType)
    ensures 0 <= Ordinal(t) < |TypeNames|
    ensures GetTypeString(t) == GetTypeString(u) <==> t == u
    ensures GetTypeString(BotObject) == "BotObject" && GetTypeString(FoodObject) == "FoodObject"
    ensures GetTypeString(TreeObject) == "TreeObject" && GetTypeString(BaseObject) == "BaseObject"
  {
  }

  /** The kind-specific part of an object. */
  datatype Body =
    | Base
    | Food(food: Foods.FoodState)
    | Tree(tree: Trees.TreeState)
    | Bot(bot: Bots.BotState)

  /** One object. `radius` is the radius given to the base constructor;
      `chunk` is its back-pointer, absent until a chunk adopts it. */
  datatype Entity = Entity(pos: Vec2, radius: int, chunk: Option<Chunks.ChunkRef>, body: Body)

  /** `type()`, resolved by the object's dynamic class. */
  function Type(e: Entity): ObjectType
  {
    match e.body
    case Base => BaseObject
    case Food(_) => FoodObject
    case Tree(_) => TreeObject
    case Bot(_) => BotObject
  }

  /** Functions the core calls whose bodies are floating-point or
      trigonometric, or are not part of this model, passed in:
      - `sqrt`: the square root of `Vec2::length` and `packProtocol`;
      - `caloriesToRadius`: `convertCaloriesToRadius`;
      - `fruitPosition(treePos, distance, i, n)`: fruit `i` of `n` on the ring
        `spawnFood` lays out at `distance` from the tree;
      - `decreaseCalories(calories, amount)`: `FoodObject::decreaseCalories`,
        giving the calories eaten and those left. */
  datatype Helpers = Helpers(
    sqrt: real -> real,
    caloriesToRadius: int -> int,
    fruitPosition: (Vec2, int, int, int) -> Vec2,
    decreaseCalories: (real, real) -> (real, real))

  ghost predicate HelpersSound(h: Helpers)
  {
    SqrtSound(h.sqrt)
  }

  /** `getRadius()`, resolved by the object's dynamic class: the constructor's
      radius for base objects and bots, a function of the calories (truncated
      to an integer) for food, and `10 + 2·fruits` for trees. */
  function GetRadius(e: Entity, h: Helpers): int
  {
    match e.body
    case Base => e.radius
    case Bot(_) => e.radius
    case Food(f) => h.caloriesToRadius(Trunc(f.calories))
    case Tree(t) => Trees.TreeRadius(t)
  }

  /** Each object reports the kind of its own class, and a base object or a
      bot reports the radius it was built with. */
  lemma TypeAndRadius(e: Entity, h: Helpers)
    ensures e.body.Base? <==> Type(e) == BaseObject
    ensures e.body.Food? <==> Type(e) == FoodObject
    ensures e.body.Tree? <==> Type(e) == TreeObject
    ensures e.body.Bot? <==> Type(e) == BotObject
    ensures Type(e) in {BaseObject, BotObject} ==> GetRadius(e, h) == e.radius
    ensures Type(e) == TreeObject ==> GetRadius(e, h) == 10 + 2 * e.body.tree.numberOfFruits
  {
  }

  /** `setChunk` then `getChunk`: the chunk set is the chunk got. Chunks live
      as long as the grid, so the weak pointer never expires here. */
  function SetChunk(e: Entity, r: Chunks.ChunkRef): (e': Entity)
    ensures e'.chunk == Some(r)
    ensures e'.(chunk := e.chunk) == e
  {
    e.(chunk := Some(r))
  }
}
