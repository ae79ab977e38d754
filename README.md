# Bots life simulation — a Dafny model of the simulation core

This project models the single-threaded core of the bots life simulation in
Dafny, and proves properties of that model. The simulation is a 2D map cut
into square chunks. It holds three kinds of objects:

- Bots, which have health, food, vision, speed and damage, and are driven by
  pluggable brains.
- Food, which ripens and then decays.
- Trees, which periodically drop fruit.

On every tick `Simulation::update` updates each object once. Each bot works
through its tick in order:

- It heals and gets hungry.
- It looks at the objects in the chunks within its vision and packs an
  `UpdateProtocol` for its brain.
- It carries out the brain's answer: do nothing, move, go to a point, attack,
  eat, or commit suicide.

After the pass, `Simulation::afterUpdate` does two things:

- It buries the objects queued for deletion. A dying bot leaves a food
  deposit where it stood.
- It hatches the bots queued for birth.

The model is organised as follows:

- Value types become datatypes and functions: vectors, range values,
  protocols, and the states of food, bots and trees.
- Classes that the source mutates become Dafny classes that keep their
  fields: `Counter`, `RangeValue`, `IDManager`, `ObjectID`, `Chunk`,
  `ChunkManager`, the chunk iterator, `UpdateProtocolResponce`,
  `BrainsRegistry` and `Simulation`.
- Loops stay loops, with invariants.

The simulation keeps its objects in three places:

- an object list `objects`, the IDs in order;
- an arena `arena`, a map from ID to the object's state, including the back
  pointer to its chunk;
- the chunks' object sets.

`Simulation.Valid` states the invariant that ties these together: every
listed object sits in exactly the one chunk its back pointer names, and that
chunk contains its position. Every operation of the model that changes the
simulation keeps this invariant. The code does not keep it: its chunk lookup
`whatChunkHere` lags by one near a chunk's left and top edges, and its
`moveToChunk` loses an object moved to its own chunk (see "## Findings",
and `Chunks.MoveAsWrittenOrphans` for a bot the code leaves in no chunk).

Floating-point numbers are modelled as `real`. The square root, the radius
formulas, fruit placement and the food's `decreaseCalories` are passed in as
functions, since they are arithmetic the model does not reproduce. Lemmas
that need them state the properties they assume (`SqrtSound`,
`HelpersSound`). Brains are modelled as functions indexed by a brain number
(`Protocol.Brains`).

Where the code and the design it documents disagree, the model follows the
code, with two kinds of exception. The first is the bugs listed under
"## Findings": each is modelled as written, with a lemma that shows it, and
the simulation-level operations are then built on the corrected definition.
So objects are filed and moved with the corrected chunk lookup, and a search
by ID uses the corrected search and reach test. "## Left out" names every
operation this affects. The second is a go-to that yields NaN, which the
model refuses (see "## Left out").

## Model

| member | source | states |
|---|---|---|
| Vectors.Trunc | src/simulation/utilities/Vec2.h:27 | the float-to-int conversion truncates toward zero: the result is the integer part, with the input's sign |
| Vectors.Quot | src/simulation/utilities/Vec2.h:54 | integer division truncates toward zero: the magnitude is the quotient of the magnitudes, and the sign is that of the operands' product |
| Vectors.ISqrt | src/simulation/utilities/Vec2.h:42-51 | the integer length is the floor of the square root: r*r <= n < (r+1)*(r+1) |
| Vectors.Vec2.Div | src/simulation/utilities/Vec2.h:90-97 | division by zero throws invalid_argument; otherwise, scaling the quotient back by the divisor gives the vector |
| Vectors.Vec2.Normalize | src/simulation/utilities/Vec2.h:49-57 | a zero-length vector is returned unchanged; otherwise, the result times the length is the vector |
| Vectors.IVec2.Normalize | src/simulation/utilities/Vec2.h:49-57 | the integer normalisation leaves the zero vector unchanged, and each component lies in -1..1 |
| Vectors.NormalizeBounds | src/simulation/utilities/Vec2.h:51-54 | dividing each component by the integer length gives -1, 0 or 1, and a zero component stays 0 |
| Vectors.AddSubCancel | src/simulation/utilities/Vec2.h:70-78 | adding and then subtracting the same vector is the identity; the operators act componentwise |
| Vectors.EqualityOperators | src/simulation/utilities/Vec2.h:100-108 | `==` holds exactly when both components agree, and `!=` is its negation |
| Vectors.DotSymmetric | src/simulation/utilities/Vec2.h:62-65 | the dot product is symmetric, and a vector dotted with itself is its non-negative squared length |
| Vectors.ComparisonOrder | src/simulation/utilities/Vec2.h:110-128 | `<=` is a partial order but not a total one; `<` implies `<=`; `>=` and `>` are the converses of `<=` and `<` |
| Vectors.NormalizeUnit | src/simulation/utilities/Vec2.h:47-57 | with a sound square root, a non-zero vector normalises to unit length |
| Vectors.NormalizeZero | src/simulation/utilities/Vec2.h:49-57 | the zero vector has length 0 and normalises to itself |
| Vectors.NormalizeIntAxis | src/simulation/utilities/Vec2.h:140-149 | an integer vector along an axis normalises to that axis's unit direction |
| Vectors.RootOfSquare | src/simulation/utilities/Vec2.h:42-45 | the integer length of a perfect square is its root |
| Vectors.SelfQuotient | src/simulation/utilities/Vec2.h:54 | a component divided by its own magnitude gives its sign |
| Vectors.DirectionTables | src/simulation/utilities/Vec2.h:164-180 | the 8 integer directions are distinct, non-zero unit steps, and they include the 4 axis directions |
| Vectors.FloatDirectionTables | src/simulation/utilities/Vec2.h:182-199 | each float direction is the matching integer direction converted, so the 8 float directions are distinct and include the 4 axis ones |
| RangeValues.Clamp | src/simulation/utilities/RangeValue.h:32 | the result is within the bounds when they are ordered; a value inside is kept, and one outside goes to the nearer bound |
| RangeValues.Range.Set | src/simulation/utilities/RangeValue.h:30-32 | set keeps the bounds, lands within a well-formed range, and stores an in-range value unchanged |
| RangeValues.Range.SetMax | src/simulation/utilities/RangeValue.h:52-60 | a maximum below the minimum throws invalid_argument; otherwise, the maximum is replaced, a value above it is pulled down, and the range stays valid |
| RangeValues.Range.SetMin | src/simulation/utilities/RangeValue.h:63-71 | a minimum above the maximum throws invalid_argument; otherwise, the minimum is replaced, a value below it is pulled up, and the range stays valid |
| RangeValues.Range.Normalize | src/simulation/utilities/RangeValue.h:73-81 | an empty span throws invalid_argument; otherwise, the result is the value's fraction of the span |
| RangeValues.StepsStayInRange | src/simulation/utilities/RangeValue.h:36-42 | increase and decrease by any amount keep a well-formed range's value within its bounds |
| RangeValues.SetIdempotent | src/simulation/utilities/RangeValue.h:32 | setting the same value twice is the same as setting it once |
| RangeValues.NormalizeBounds | src/simulation/utilities/RangeValue.h:73-81 | the normalised value lies in 0..1: 0 at the minimum and 1 at the maximum |
| RangeValues.RangeValue.Default | src/simulation/utilities/RangeValue.h:21-22 | the default range value is 0 within 0..0 |
| RangeValues.RangeValue.constructor | src/simulation/utilities/RangeValue.h:23-24 | the constructor stores value, minimum and maximum as given |
| RangeValues.RangeValue.Set | src/simulation/utilities/RangeValue.h:32 | the object's new state is that of Range.Set |
| RangeValues.RangeValue.Increase | src/simulation/utilities/RangeValue.h:38 | the object's new state is the clamped sum |
| RangeValues.RangeValue.Decrease | src/simulation/utilities/RangeValue.h:42 | the object's new state is the clamped difference |
| RangeValues.RangeValue.SetMax | src/simulation/utilities/RangeValue.h:52-60 | on refusal, the state is unchanged and the error is returned; otherwise, the new state is that of Range.SetMax |
| RangeValues.RangeValue.SetMin | src/simulation/utilities/RangeValue.h:63-71 | on refusal, the state is unchanged and the error is returned; otherwise, the new state is that of Range.SetMin |
| Counters.ClampInt | src/simulation/utilities/Counter.h:12-22 | the integer clamp keeps an in-range value, sends one outside to the nearer bound, and lands within ordered bounds |
| Counters.Counter.constructor | src/simulation/utilities/Counter.h:8 | the constructor stores the value and the maximum |
| Counters.Counter.Increment | src/simulation/utilities/Counter.h:12-15 | the counter steps up, saturating at the maximum, and reports exactly when it is at the maximum |
| Counters.Counter.Decrement | src/simulation/utilities/Counter.h:19-22 | the counter steps down, saturating at 0, and reports exactly when it is at 0 |
| IDs.IDManager.constructor | src/simulation/utilities/IDManager.h:8-10 | the counter starts at 0 and no ID has been issued |
| IDs.IDManager.GetAssignValue | src/simulation/utilities/IDManager.h:13-19 | an exhausted counter throws overflow_error; otherwise, the counter's value is issued, the counter advances, and the new ID exceeds every earlier one |
| IDs.IDManager.GetCurrentIdCounter | src/simulation/utilities/IDManager.h:22 | the current counter equals the number of IDs issued |
| IDs.IssuedStrictlyIncreasing | src/simulation/utilities/IDManager.h:12-19 | the issued IDs are strictly increasing, so no ID is issued twice |
| IDs.SetAsWritten | src/simulation/utilities/IDManager.h:34-41 | setting an ID that is already set throws runtime_error; the code never records the ID as set |
| IDs.SetOnce | src/simulation/utilities/IDManager.h:33-41 | a set ID refuses a second set with runtime_error; an unset one stores the ID and records it as set |
| IDs.SetAsWrittenOverwrites | src/simulation/utilities/IDManager.h:34-41 | as written, a second set succeeds and overwrites the first ID |
| IDs.SetOnceIsFinal | src/simulation/utilities/IDManager.h:33-41 | with the flag recorded, the first ID set is final and a second set is refused |
| IDs.ObjectID.Empty | src/simulation/utilities/IDManager.h:30 | a default ObjectID holds no ID |
| IDs.ObjectID.constructor | src/simulation/utilities/IDManager.h:31 | an ObjectID built from an ID holds it, marked as set |
| IDs.ObjectID.Set | src/simulation/utilities/IDManager.h:34-41 | the object's new state and outcome are those of SetAsWritten |
| EvolutionPoints.ConversionsAreAdditive | src/simulation/settings/EvolutionPointsSettings.h:41-61 | each points-to-stat conversion maps 0 to 0 and is additive in the points |
| EvolutionPoints.ConversionsAreMonotone | src/simulation/settings/EvolutionPointsSettings.h:41-61 | with non-negative rates, more points never give less of any stat |
| EvolutionPoints.DefaultRates | src/simulation/settings/EvolutionPointsSettings.h:22-36 | the default rates are non-negative; the default budget buys 500 health or 500 vision, and 10 points buy speed 3 |
| BrainsRegistries.BelowIrreflexive | src/simulation/protocols/brain/BrainsRegistry.h:39 | the name order of the registry's map is irreflexive |
| BrainsRegistries.BelowTotal | src/simulation/protocols/brain/BrainsRegistry.h:39 | any two different names are ordered one way or the other |
| BrainsRegistries.BelowTransitive | src/simulation/protocols/brain/BrainsRegistry.h:39 | the name order is transitive |
| BrainsRegistries.BelowAsymmetric | src/simulation/protocols/brain/BrainsRegistry.h:39 | the name order is asymmetric |
| BrainsRegistries.LeastExists | src/simulation/protocols/brain/BrainsRegistry.h:39 | every non-empty set of names has a least name |
| BrainsRegistries.AscendingUnique | src/simulation/protocols/brain/BrainsRegistry.h:30-39 | two ascending listings of the same names are equal, so the listing is determined by the registered names |
| BrainsRegistries.BrainsRegistry.constructor | src/simulation/protocols/brain/BrainsRegistry.h:42 | a new registry is empty |
| BrainsRegistries.BrainsRegistry.RegisterBot | src/simulation/protocols/brain/BrainsRegistry.h:18-20 | registering binds the name to the factory, replacing an earlier binding; other names keep theirs |
| BrainsRegistries.BrainsRegistry.CreateBot | src/simulation/protocols/brain/BrainsRegistry.h:22-28 | creating succeeds exactly for a registered name, with its factory; an unknown name throws runtime_error |
| BrainsRegistries.BrainsRegistry.ListRegisteredBots | src/simulation/protocols/brain/BrainsRegistry.h:30-36 | the listing holds each registered name exactly once, in ascending order |
| Protocol.CodesAreDense | src/simulation/protocols/UpdateProtocol.h:16-28 | the action codes are 0..9, and the code and the decoding invert each other |
| Protocol.ParseFailsOnlyOnSpawn | src/simulation/objects/Bot.cpp:60-104 | parsing a decision fails, with invalid_argument, exactly for the two spawn actions |
| Protocol.SetterThenParse | src/simulation/protocols/UpdateProtocol.h:42-155 | each setter followed by the parse yields the action it names, with its arguments; a spawn request is refused |
| Protocol.SettersKeepOtherArguments | src/simulation/protocols/UpdateProtocol.h:56-122 | a setter changes only its own arguments, so arguments set earlier survive later setters |
| Protocol.UpdateProtocolResponce.constructor | src/simulation/protocols/UpdateProtocol.h:32-35 | a response starts in the state given |
| Protocol.UpdateProtocolResponce.ActionDoNothing | src/simulation/protocols/UpdateProtocol.h:42-45 | only the action type changes, to do nothing |
| Protocol.UpdateProtocolResponce.ActionMove | src/simulation/protocols/UpdateProtocol.h:56-63 | the action becomes move, storing direction and speed multiplier |
| Protocol.UpdateProtocolResponce.ActionGoTo | src/simulation/protocols/UpdateProtocol.h:72-76 | the action becomes go-to, storing the target position |
| Protocol.UpdateProtocolResponce.ActionEatNearest | src/simulation/protocols/UpdateProtocol.h:83-86 | the action becomes eat-nearest |
| Protocol.UpdateProtocolResponce.ActionEatByID | src/simulation/protocols/UpdateProtocol.h:95-99 | the action becomes eat-by-ID, storing the food's ID |
| Protocol.UpdateProtocolResponce.ActionAttackNearest | src/simulation/protocols/UpdateProtocol.h:106-109 | the action becomes attack-nearest |
| Protocol.UpdateProtocolResponce.ActionAttackByID | src/simulation/protocols/UpdateProtocol.h:118-122 | the action becomes attack-by-ID, storing the target's ID |
| Protocol.UpdateProtocolResponce.ActionSpawnSelfCopy | src/simulation/protocols/UpdateProtocol.h:142-145 | the action becomes spawn-self-copy |
| Protocol.UpdateProtocolResponce.ActionSuicide | src/simulation/protocols/UpdateProtocol.h:152-155 | the action becomes suicide |
| Foods.GrowthIsCapped | src/simulation/objects/Food.h:33-39 | growing food never exceeds its maximum; it matures exactly when growth reaches the maximum, and then sits at the maximum |
| Foods.DecayIsFinal | src/simulation/objects/Food.h:40-45 | mature food stays mature and loses its decay rate each tick; it expires exactly when mature and out of calories; its rates never change |
| Foods.MatureFoodExpires | src/simulation/objects/Food.h:40-45 | mature food with a positive decay rate expires within calories/decay ticks |
| Foods.NeverAboveMaximum | src/simulation/objects/Food.h:32-46 | after any number of updates, food never exceeds its maximum calories |
| Bots.VitalsStayInRange | src/simulation/objects/Bot.cpp:24-40 | healing and hunger keep a healthy bot's health and food within bounds; healing adds 0.1 health for 0.2 food, and hunger costs 0.1 food |
| Bots.GetSeeDistance | src/simulation/objects/Bot.h:78-90 | the see distance is the truncated product of distance and multiplier, capped at the maximum |
| Bots.SeeDistanceAtDefaultMultiplier | src/simulation/objects/Bot.h:84-85 | at multiplier 1, the see distance is the bot's own distance, capped at the maximum |
| Bots.PerceptionIsStricter | src/simulation/objects/Bot.cpp:419-420 | what the protocol packer perceives (strictly closer) is in vision, but an object exactly at the see distance is in vision and not perceived |
| Bots.MovedPosition | src/simulation/objects/Bot.cpp:106-117 | a moved bot's position is clamped to the map |
| Bots.GoToReachesNearTarget | src/simulation/objects/Bot.cpp:136-139 | a target within one step is reached exactly |
| Bots.GoToStepsTowardFarTarget | src/simulation/objects/Bot.cpp:136-139 | a target farther than one step is approached by a full step along the normalised direction |
| Bots.GoToOwnPosition | src/simulation/objects/Bot.cpp:136-139 | going to its own position, a moving bot stands still; a bot with zero speed divides 0 by 0 (NaN) |
| Bots.ZeroMoveStays | src/simulation/objects/Bot.cpp:106-117 | a move with zero multiplier leaves an on-map bot where it is |
| Bots.BiteSize | src/simulation/objects/Bot.cpp:303 | a bite is the larger of 5 and a twentieth of the bot's maximum food |
| Bots.EffectsStayInRange | src/simulation/objects/Bot.cpp:217-221 | being attacked, paying for an attack, and eating keep a healthy bot healthy, and eating never exceeds the maximum food |
| Bots.Deposit | src/simulation/objects/Bot.cpp:367-382 | a dying bot leaves mature food holding its deposit calories in full, which decays by 5 and does not grow |
| Bots.DepositLasts | src/simulation/objects/Bot.cpp:371-382 | the deposit holds at least 30% of the bot's maximum health and expires within the number of ticks its calories allow |
| Trees.NewTree | src/simulation/objects/Tree.h:23-42 | a new tree starts with a full cooldown and the given number of fruits |
| Trees.Fruit | src/simulation/objects/Tree.h:81-89 | a fruit starts at 10% of the tree's food maximum, with the tree's growth and decay rates and maturity |
| Trees.UpdateRule | src/simulation/objects/Tree.h:55-65 | an update changes only the cooldown: it counts down by 1, or resets to the maximum when the tree spawns |
| Trees.TicksAdd | src/simulation/objects/Tree.h:55-65 | running a+b ticks is running a ticks and then b, and their spawn counts add |
| Trees.CountDown | src/simulation/objects/Tree.h:57-59 | a cooldown of j runs to 0 in j ticks without spawning |
| Trees.TreeCycle | src/simulation/objects/Tree.h:55-65 | from a full cooldown m, the tree spawns once in m+1 ticks and returns to its starting state |
| Trees.TreePeriod | src/simulation/objects/Tree.h:55-65 | in k full cycles of m+1 ticks, the tree spawns exactly k times and returns to its starting state |
| Chunks.Chunk.constructor | src/simulation/chunks.h:39-43 | a chunk covers its square from its start, with the default multiplier and no objects |
| Chunks.Chunk.AddObject | src/simulation/chunks.h:48-51 | adding puts the object in the chunk's set and returns the back pointer to this chunk |
| Chunks.Chunk.RemoveObject | src/simulation/chunks.cpp:3-12 | removing takes the object out of the set, and removing an absent object changes nothing |
| Chunks.Chunk.MoveToChunk | src/simulation/chunks.h:65-69 | the object joins the destination and leaves this chunk; when the destination is this chunk, the object is lost from every chunk |
| Chunks.ChunkManager.constructor | src/simulation/chunks.h:131-144 | the grid has the requested dimensions, each chunk at its place and empty |
| Chunks.ChunkManager.GetChunk | src/simulation/chunks.h:150-156 | a chunk is returned exactly for in-grid indices, and it is the chunk at those indices |
| Chunks.ChunkManager.VisitAll | src/simulation/chunks.h:183-220 | iterating from begin to end visits every chunk once, row by row |
| Chunks.ChunkIterator.constructor | src/simulation/chunks.h:190-191 | the iterator starts at the indices given |
| Chunks.ChunkIterator.Next | src/simulation/chunks.h:197-205 | the iterator steps along a row and wraps to the start of the next row |
| Chunks.BuildRows | src/simulation/chunks.h:136-143 | the construction loops build numberOfChunksY rows of numberOfChunksX fresh, empty chunks, each at its place |
| Chunks.BuildRow | src/simulation/chunks.h:139-142 | the inner construction loop builds one row of fresh, empty chunks at their places |
| Chunks.AxisIndexCorrect | src/simulation/chunks.h:161-167 | the corrected index of a coordinate on the map is the cell containing it |
| Chunks.AxisIndexAsWrittenRange | src/simulation/chunks.h:163-164 | as written, the index stays in the grid for coordinates up to one unit beyond the map |
| Chunks.AxisIndexAsWrittenLags | src/simulation/chunks.h:163 | as written, a coordinate less than one unit into a cell gets the previous cell's index |
| Chunks.WhatChunkHereFinds | src/simulation/chunks.h:161-167 | the corrected lookup finds a chunk exactly within the map's far edges, and that chunk contains the position |
| Chunks.WhatChunkHereAsWrittenFinds | src/simulation/chunks.h:161-167 | as written, the lookup finds a chunk for positions up to one unit beyond the map's far edges |
| Chunks.WhatChunkHereAsWrittenMisplaces | src/simulation/chunks.h:161-167 | as written, a point just past a cell's start is given the previous chunk, which does not contain it; the corrected lookup gives the right one |
| Chunks.WhatChunkHereAsWrittenExample | src/simulation/chunks.h:161-167 | with 10-unit chunks, (10.5, 5) is given chunk (0,0) as written and chunk (1,0) when corrected |
| Chunks.RechunkAsWritten | src/simulation/objects/Bot.cpp:118-123 | as written, a position inside the bot's chunk changes nothing; otherwise the bot joins the chunk the lagging lookup names and leaves its own, unless that chunk is its own, in which case it only leaves it |
| Chunks.MoveAsWrittenOrphans | src/simulation/chunks.h:65-69 | with 10-unit chunks, a bot that only chunk (0,0) holds and that steps to (10.5, 5) is held by no chunk afterwards, while its back pointer still names chunk (0,0) |
| Chunks.SharedEdgeInsideTwoChunks | src/simulation/chunks.h:81-83 | a point on the edge shared by two chunks is inside both |
| Chunks.ReprCell | src/simulation/chunks.h:131-144 | every chunk of the manager sits in the grid at its own indices |
| Objects.TypeStringsAreDistinct | src/simulation/objects/SimulationObject.cpp:3-5 | each type has its own name, and the names are the enum's |
| Objects.TypeAndRadius | src/simulation/objects/SimulationObject.h:59-65 | each body kind reports its own type; base objects and bots have their stored radius, and a tree's radius is 10 plus 2 per fruit |
| Objects.SetChunk | src/simulation/objects/SimulationObject.h:67-73 | setting the chunk changes only the back pointer |
| Searches.ScanNearest | src/simulation/objects/Bot.cpp:174-188 | scanning one chunk keeps the nearest wanted object strictly within the limit |
| Searches.FindNearest | src/simulation/objects/Bot.cpp:169-203 | searching the queue of chunks finds the nearest object of the wanted kind (other than the bot) strictly within the limit |
| Searches.FindByID | src/simulation/objects/Bot.cpp:189-199 | the search by ID finds the target exactly when it is of the wanted kind and in a searched chunk |
| Searches.FindByIDAsWritten | src/simulation/objects/Bot.cpp:171-203 | as written, finding the target pops the queue once more than it holds (undefined behaviour), and a search that does not find it returns nothing |
| Searches.IDChoice | src/simulation/objects/Bot.cpp:206 | the corrected choice by ID reports the target's own squared distance, or the limit when there is no target |
| Searches.StaleReachExample | src/simulation/objects/Bot.cpp:206 | as written, a target 20 units away is in reach for a radius-10 bot, because the reach test uses the limit, not the distance |
| Searches.StaleReachMisses | src/simulation/objects/Bot.cpp:206 | as written, a target at the bot's own position is out of reach for small radii; corrected, it is in reach |
| Searches.LookAt | src/simulation/objects/Bot.cpp:417-458 | looking at one object offers it to each kind's nearest candidate, and adds it to the visible set when it is a perceived food, tree or bot |
| Searches.ScanPerceived | src/simulation/objects/Bot.cpp:415-461 | scanning one chunk keeps the nearest perceived food, tree and bot, and collects every perceived object of those kinds |
| Searches.ScanAll | src/simulation/objects/Bot.cpp:413-462 | scanning all chunks in vision finds the nearest perceived object of each kind, and collects every perceived food, tree and bot |
| Searches.PackProtocol | src/simulation/objects/Bot.cpp:387-476 | the packed protocol keeps the bot's shadow; it lists every perceived food, tree and bot as visible, and reports the nearest of each kind with its distance, or -1 when there is none; enemies are not filled in |
| Searches.RootedReports | src/simulation/objects/Bot.cpp:464-475 | the distance reported is the root of the nearest object's squared distance, and -1 exactly when there is none |
| Areas.BlockQueue | src/simulation/objects/Bot.cpp:150-163 | the 3x3 block around a chunk is queued in the source's order, with the off-grid cells left out |
| Areas.BlockIsNeighbourhood | src/simulation/objects/Bot.cpp:152-162 | a chunk is in the block exactly when it is in the grid within one cell of the centre in each axis |
| Areas.SearchQueue | src/simulation/objects/Bot.cpp:144-168 | the attack/eat search queue is the bot's own chunk, and the 3x3 block around it when the reach is large |
| Areas.SearchAreaInGrid | src/simulation/objects/Bot.cpp:144-168 | the search queue holds only the manager's chunks, and always the bot's own |
| Areas.RadiusBounds | src/simulation/objects/Bot.h:103-121 | the corner indices of the vision square are clamped to the grid |
| Areas.RowChunks | src/simulation/objects/Bot.h:125-128 | the inner loop collects one row of the square |
| Areas.ChunksInRadius | src/simulation/objects/Bot.h:96-137 | the loops collect the chunks of the clamped square, row by row |
| Areas.RectLength | src/simulation/objects/Bot.h:123-129 | the square holds width times height entries |
| Areas.RectMember | src/simulation/objects/Bot.h:123-129 | a chunk is in the square exactly when its indices lie within the bounds |
| Areas.RectDistinct | src/simulation/objects/Bot.h:123-129 | no chunk appears twice in the square |
| Areas.RadiusChunks | src/simulation/objects/Bot.h:96-137 | a chunk is in a bot's vision square exactly when its indices lie within the clamped bounds |
| Areas.RadiusChunksInGrid | src/simulation/objects/Bot.h:96-137 | the vision square holds only the manager's chunks |
| Simulations.Adopted | src/simulation/simulation.cpp:214-226 | an added object keeps its position, radius, kind and brain, and gets its chunk back pointer |
| Simulations.EraseFirst | src/simulation/simulation.cpp:65-69 | the erase loop removes the first occurrence of the ID, or nothing when it is absent; on a duplicate-free list this is removing the ID |
| Simulations.EraseUnique | src/simulation/simulation.cpp:65-69 | erasing from a duplicate-free list removes exactly the ID and keeps the list duplicate-free |
| Simulations.DyingEnds | src/simulation/simulation.cpp:52-73 | after the death loop, every queued object is gone and its deposit is in the list; every other object is unchanged; deposits are new |
| Simulations.Buried | src/simulation/simulation.cpp:54-71 | one burial removes the dead object from the list and the arena, and adds its fresh deposit |
| Simulations.HitTouches | src/simulation/objects/Bot.cpp:204-207 | both modes of the corrected search yield a choice measured from the bot; on such a choice, the action affects the chosen object exactly when their bodies touch, that is, when the centres are at most the sum of the radii apart |
| Simulations.AttackingEffects | src/simulation/objects/Bot.cpp:204-221 | an attack costs the attacker 0.1 food, and on a hit 0.4 more, while the target loses the attacker's damage in health; nothing else changes or moves, and all bots stay healthy |
| Simulations.EatingEffects | src/simulation/objects/Bot.cpp:286-305 | eating costs 0.05 food, and on a hit the bot gains what the food gives up from a bite; only the bot and that food change, and all bots stay healthy |
| Simulations.ClampedLeast | src/simulation/simulation.cpp:300-304 | the clamped allocation is the least non-negative allocation at least the brain's; it keeps a non-negative allocation, and clamping twice changes nothing |
| Simulations.NewBotIsHealthy | src/simulation/simulation.cpp:318-340 | a newborn bot with non-negative rates is healthy, has the maxima its points buy, and sees no farther than the cap |
| Simulations.Refreshed | src/simulation/objects/Bot.cpp:24-40 | the refreshed bot publishes the shadow of its healed state and keeps its brain |
| Simulations.FruitEntity | src/simulation/objects/Tree.h:73-90 | each fruit is the tree's fruit food, not yet in a chunk |
| Simulations.FruitsGrow | src/simulation/objects/Tree.h:69-92 | adding the next fruit extends the fruits spawned so far |
| Simulations.Simulation.constructor | src/simulation/simulation.cpp:19-30 | a new simulation is empty and valid, with a grid of the requested size and the vision cap derived from the chunk size |
| Simulations.Simulation.ExactlyOneChunk | src/simulation/simulation.cpp:214-220 | a listed object is in exactly the chunk its back pointer names |
| Simulations.Simulation.OnlyCell | src/simulation/simulation.cpp:214-220 | an object in the arena is in no chunk other than the one its back pointer names |
| Simulations.Simulation.AddObject | src/simulation/simulation.cpp:203-231 | an off-map position throws invalid_argument, and an exhausted ID counter overflow_error, with nothing changed; otherwise, the object gets the next ID and joins the list, the arena and exactly the chunk containing it |
| Simulations.Simulation.Destination | src/simulation/objects/Bot.cpp:118-123 | the destination chunk contains the new position, and it is the current chunk when that chunk still contains the position |
| Simulations.Simulation.Relocate | src/simulation/objects/Bot.cpp:113-123 | a moved object gets its new position and the destination chunk as its back pointer; only its own chunk membership changes |
| Simulations.Simulation.MoveWithin | src/simulation/objects/Bot.cpp:113-120 | a move inside its chunk changes only the object's position and body |
| Simulations.Simulation.MoveAcross | src/simulation/chunks.h:65-69 | a move to another chunk puts the object in the destination chunk, with its back pointer updated |
| Simulations.Simulation.Enter | src/simulation/chunks.h:66 | the destination chunk gains the object |
| Simulations.Simulation.Repoint | src/simulation/chunks.h:67 | the object's back pointer, position and body are updated |
| Simulations.Simulation.Leave | src/simulation/chunks.h:68 | the old chunk loses the object, and the invariant is restored |
| Simulations.Simulation.MoveTarget | src/simulation/objects/Bot.cpp:113-117 | the target of a move is on the map |
| Simulations.Simulation.ActionMove | src/simulation/objects/Bot.cpp:106-134 | a move pays its cost, puts the bot at the clamped position, and leaves it in the chunk containing that position |
| Simulations.Simulation.ActionGoTo | src/simulation/objects/Bot.cpp:136-139 | go-to is the move with the multiplier that reaches the target or steps toward it; a NaN multiplier is refused and changes nothing |
| Simulations.Simulation.Search | src/simulation/objects/Bot.cpp:144-203 | the target chosen is the nearest of the kind in the search chunks, or the one named by ID |
| Simulations.Simulation.ActionAttack | src/simulation/objects/Bot.cpp:141-215 | an attack searches for a bot and applies Attacking to the target in reach |
| Simulations.Simulation.ActionEat | src/simulation/objects/Bot.cpp:223-297 | eating searches for food and applies Eating to the target in reach |
| Simulations.Simulation.Act | src/simulation/objects/Bot.cpp:60-104 | each parsed action has its effect on the state it starts from, and attack and eat search the chunks of that state; suicide queues the bot for deletion; only a NaN go-to fails |
| Simulations.Simulation.Motion | src/simulation/objects/Bot.cpp:63-98 | the actions other than attack and eat have their effect |
| Simulations.Simulation.Contact | src/simulation/objects/Bot.cpp:76-94 | attack and eat have their effect |
| Simulations.Simulation.Think | src/simulation/objects/Bot.cpp:13-42 | a bot with no health is queued for deletion; it heals, publishes its shadow, perceives what is in its vision, and takes its brain's decision; no chunk changes |
| Simulations.Simulation.Decide | src/simulation/objects/Bot.cpp:24-40 | the bot takes its new state, and joins the death queue when dying |
| Simulations.Simulation.Perceive | src/simulation/objects/Bot.cpp:387-476 | the protocol reports what the bot perceives in the chunks within its vision |
| Simulations.Simulation.BotUpdate | src/simulation/objects/Bot.cpp:13-44 | a bot update first thinks, giving exactly the state and protocol `Think` gives; then the decision parsed from the bot's new state has its effect on that state, with the searches run on the chunks as they were at the start; a refused parse fails with invalid_argument and keeps the thought state; the death queue gains the bot when dying and again on suicide |
| Simulations.Simulation.FoodUpdate | src/simulation/objects/Food.h:32-46 | food takes its updated state, and joins the death queue when it expires |
| Simulations.Simulation.SpawnFood | src/simulation/objects/Tree.h:68-93 | a spawn adds the tree's fruits in order; a refused fruit ends it with the fruits so far kept |
| Simulations.Simulation.SpawnNext | src/simulation/objects/Tree.h:69-92 | one fruit is added, extending the fruits spawned so far |
| Simulations.Simulation.TreeUpdate | src/simulation/objects/Tree.h:55-65 | a tree counts down, or spawns all its fruits and resets; the objects gained are exactly the fruits added, appended in order; everything else is unchanged |
| Simulations.Simulation.UpdateObject | src/simulation/simulation.cpp:43-46 | each kind's update keeps the invariant and has its kind's effect: food updates and may expire, a tree counts down or spawns, a bot thinks and acts; a base object does nothing |
| Simulations.Simulation.Update | src/simulation/simulation.cpp:32-48 | when running, each object listed at the start is updated once, in order, until one fails; when stopped, nothing changes |
| Simulations.Simulation.UpdateNext | src/simulation/simulation.cpp:41-47 | the snapshot's object at the given place is still listed and gets exactly its kind's update, and the snapshot stays at the front of the list |
| Simulations.Simulation.OnDestroy | src/simulation/objects/Bot.cpp:367-385 | a destroyed bot leaves its deposit where it stands, through addObject; other kinds leave nothing |
| Simulations.Simulation.Unlist | src/simulation/simulation.cpp:60-71 | the dead object leaves the list, its chunk, the death queue, and the arena |
| Simulations.Simulation.EraseListed | src/simulation/simulation.cpp:65-69 | the dead object leaves the object list |
| Simulations.Simulation.Drop | src/simulation/simulation.cpp:60-71 | the dead object leaves its chunk and the arena, and the death queue is popped |
| Simulations.Simulation.Bury | src/simulation/simulation.cpp:54-71 | one burial removes the front of the death queue and adds its deposit; a refused deposit changes nothing |
| Simulations.Simulation.BuryNext | src/simulation/simulation.cpp:52-73 | one iteration of the death loop extends what the loop has done |
| Simulations.Simulation.BuryAll | src/simulation/simulation.cpp:52-73 | the death loop empties the queue, removing each queued object and adding each deposit |
| Simulations.Simulation.AddSmartBot | src/simulation/simulation.cpp:290-373 | overspending the budget throws invalid_argument; otherwise, the brain's bot is added as addObject adds one, healthy when the rates are non-negative |
| Simulations.Simulation.Hatch | src/simulation/simulation.cpp:75-77 | the front birth becomes a new bot with its brain, and is popped; a refused birth stays queued |
| Simulations.Simulation.HatchNext | src/simulation/simulation.cpp:74-78 | one iteration of the birth loop extends what the loop has done |
| Simulations.Simulation.HatchAll | src/simulation/simulation.cpp:74-78 | the birth loop hatches every queued birth in order, or stops at the first refusal |
| Simulations.Simulation.AfterUpdate | src/simulation/simulation.cpp:50-79 | after update, the dead are gone, with their deposits, and the born are added; every other object is unchanged; each deposit is a new food deposit; when nothing is refused, one bot is born per queued birth, each new and with its birth's brain |
| Simulations.Simulation.MarkForDeletion | src/simulation/objects/SimulationObject.cpp:19-23 | marking queues the object for deletion |

## Left out

- Rendering, logging, the camera and the GUI are left out, because they do not affect the simulation state.
- The `debug_drawing` branch of `BotObject::update` (Bot.cpp:16-23), which takes 0.5 health from a bot with no food, is left out: the flag is false for every bot (Bot.h:18,37) and nothing in the core sets it.
- `initBotClasses` is left out, because it uses a random generator and trigonometry to scatter bots. Randomness is not modelled.
- The singleton `getInstance` and the registration macros of the brains registry are left out, because they are C++ static-initialisation machinery. Factories are modelled as brain numbers.
- `actionSpawnBot` is left out, because nothing in the core calls it, and its parse is refused with invalid_argument.
- Floating-point arithmetic is modelled as exact `real` arithmetic. NaN appears only where it decides a branch: a go-to at zero speed fails with `NotANumber`.
- Simulations.Simulation.ActionGoTo: a go-to to the bot's own position at speed 0 computes 0/0. The code carries on with NaN: the bot's food and position become NaN, and its chunk index is computed from NaN, which is undefined behaviour. The model refuses this go-to with `NotANumber` and changes nothing.
- Simulations.Simulation.Update: the model ends the pass at the first update that fails. That is right for the exceptions the code throws, such as a refused parse, but the NaN go-to throws nothing in the code, which goes on to the next object with a NaN bot.
- The square root, the radius formulas for bots, food and trees, fruit placement, and `decreaseCalories` are passed in as functions, because they are numeric helpers outside the core.
- The bot radius is a simulation parameter, and the base radii of food and trees come from the radius helpers. The settings that derive them are not modelled.
- Integer overflow is left out, except for the ID counter, which is bounded by `ULONG_MAX`. All other integers are unbounded.
- Expiry of `weak_ptr`s is left out. The model's object sets hold IDs of live objects only.
- The bots' `lastAction*` fields, colour, and `brain->kill` are left out, because the model does not read them.
- `actionAttack` ignores its `attackOwnKind` argument (Bot.cpp:141-143), and the update protocol declares no such field. The model, like the code, lets a bot attack any bot whatever its kind: the nearest-target search skips only the attacker, and a search by ID may even name the attacker. The enemy fields of the protocol stay unset, as in the code.
- `decreaseCalories` does not mark eaten-out food for deletion. Food is queued only by its own update.
- Simulations.Simulation.Think: perception reads the other objects' positions and kinds, which healing does not change. The model takes them from the state at the start of the update.
- The death queue may hold an object twice. A second entry is modelled as in the code: the object has already left the list, and its arena entry stays until the last entry.
- Areas.RadiusBounds: the corners of the vision square are looked up with the corrected `whatChunkHere`, not the lagging one of Bot.h:103,105. The vision square then matches the chunks objects are filed in. As written, a corner less than one unit past a chunk edge gets the previous column or row.
- Areas.ChunksInRadius: returns the rectangle of the corrected `RadiusBounds`, not the rectangle of the code's lagging corners.
- Areas.RadiusChunks: characterises the chunks of the corrected bounds, not those `getChunksInRadius` returns as written.
- Simulations.Simulation.Destination: names the chunk that the corrected lookup gives for the new position, not the chunk of the code's lagging lookup at Bot.cpp:122. `Chunks.RechunkAsWritten` models the code's choice.
- Simulations.Simulation.Relocate: always lands the bot in the chunk that contains its new position. The code can name the bot's own chunk as the destination and then lose the bot from every chunk (`Chunks.MoveAsWrittenOrphans`).
- Simulations.Simulation.MoveAcross: moves the bot to the chunk of the corrected lookup, so it never meets the code's self-move that orphans the bot.
- Simulations.Simulation.ActionMove: changes chunk through the corrected `MoveAcross`, so the bot is never orphaned.
- Simulations.Simulation.Search: in ID mode, runs the corrected `FindByID` and reports the target's own squared distance. As written (Bot.cpp:189-206), finding the target pops an empty queue, which is undefined behaviour, and the reach test then uses the stale limit `chunkSize*10`.
- Simulations.Simulation.ActionAttack: tests reach on the corrected ID choice. As written, a radius-10 bot attacking by ID hits a target 20 units away.
- Simulations.Simulation.ActionEat: tests reach on the corrected ID choice, as `ActionAttack` does.
- Simulations.Simulation.Act: dispatches to the corrected move, go-to, attack and eat.
- Simulations.Simulation.Motion: is built on the corrected move and go-to.
- Simulations.Simulation.Contact: is built on the corrected attack and eat.
- Simulations.Simulation.Perceive: looks at the chunks of the corrected `RadiusBounds`.
- Simulations.Simulation.BotUpdate: composes the corrected perception and actions.
- Simulations.Simulation.SpawnFood: files each fruit through `AddObject`, so with the corrected lookup.
- Simulations.Simulation.SpawnNext: files the fruit through `AddObject`, so with the corrected lookup.
- Simulations.Simulation.TreeUpdate: spawns through `AddObject`, so with the corrected lookup.
- Simulations.Simulation.UpdateObject: dispatches to the corrected bot and tree updates.
- Simulations.Simulation.UpdateNext: is one step of the corrected pass.
- Simulations.Simulation.OnDestroy: files the dropped food with the corrected lookup, through `AddObject`.
- Simulations.Simulation.Bury: goes through the corrected `OnDestroy`.
- Simulations.Simulation.BuryNext: goes through the corrected `OnDestroy`.
- Simulations.Simulation.BuryAll: goes through the corrected `OnDestroy`.
- Simulations.Simulation.AddSmartBot: files the bot with the corrected lookup, not the lagging one of simulation.cpp:358.
- Simulations.Simulation.Hatch: goes through the corrected `AddSmartBot`.
- Simulations.Simulation.HatchNext: goes through the corrected `AddSmartBot`.
- Simulations.Simulation.HatchAll: goes through the corrected `AddSmartBot`.
- Simulations.Simulation.ActionGoTo: changes chunk through the corrected `MoveAcross`, as `ActionMove` does, so the bot is never orphaned.
- Simulations.Simulation.Update: runs the corrected bot, tree and food updates, so every object stays in the chunk that contains it.
- Simulations.Simulation.Update: states the pass as its order, the objects it visits and the invariant it keeps. The effect of each object's update is stated one step at a time by `UpdateNext`, and is not composed over the whole pass.
- Simulations.Simulation.AfterUpdate: buries and hatches with the corrected lookup. That is why it keeps `Valid`, which the code's lookup does not.
- Simulations.Simulation.Think: perceives through the corrected `Perceive`, which looks at the chunks of the corrected `RadiusBounds`.
- Simulations.Simulation.AddObject: files the object in the chunk of the corrected lookup, not the lagging one of simulation.cpp:215. With 10-unit chunks, the code files (10.5, 5) in chunk (0,0), which does not contain it.
- Simulations.Simulation.AddObject: when the ID counter is exhausted, the code has already put the object in its chunk, and that entry stays behind with no object listed for it. The model reports the same overflow_error but leaves the chunks unchanged.
- Simulations.Simulation.AddSmartBot: states the budget check and the added bot's brain and health, but not its colour, and not the stats beyond the maxima `NewBotIsHealthy` states.
- Chunks.ChunkManager.Valid: the manager's footprint is tied to the flattened grid only. The chunks' start positions are kept by `ChunkAt` as the constructor builds them.
- Protocol.ParseProtocolResponce has no contract of its own. Its meaning is stated by `ParseFailsOnlyOnSpawn` and `SetterThenParse`.
- Counters.Counter.IsMax and Counters.Counter.IsMin are plain reads of the counter's state, without contracts.
- The stale headers that no part of the core includes are not part of this model.
- The documentation of `EvolutionPointsSettings` calls the rates "points per unit", while the code multiplies points by them. The model follows the code.

## Findings

| source | as written | input that shows it | evidently intended | confidence | as-written member | corrected member |
|---|---|---|---|---|---|---|
| src/simulation/chunks.h:163-164 | `whatChunkHere` subtracts 1 before truncating a coordinate to a chunk index | 10-unit chunks, point (10.5, 5): given chunk (0,0), which does not contain it | the index of the chunk containing the point, (1,0) | high, not executed | Chunks.WhatChunkHereAsWrittenExample | Chunks.WhatChunkHereFinds |
| src/simulation/chunks.h:65-69 | `moveToChunk` adds the object to the destination and then erases it from this chunk, even when the destination is this chunk | 10-unit chunks, a bot in chunk (0,0) steps to (10.5, 5): the position is not inside its chunk, and the as-written lookup names that same chunk as the destination, so the bot ends up in no chunk | the object leaves its chunk for the chunk containing its new position | high, not executed | Chunks.MoveAsWrittenOrphans | Simulations.Simulation.Relocate |
| src/simulation/utilities/IDManager.h:34-41 | `ObjectID::set` never records that the ID is set, so the guard against a second set never fires | set 1, then set 2: both succeed and the ID becomes 2 | the first ID set is final | high, not executed | IDs.SetAsWrittenOverwrites | IDs.SetOnceIsFinal |
| src/simulation/objects/Bot.cpp:197-202 | in ID mode, finding the target clears the queue and then pops it once more | attack by ID of a bot in the bot's own chunk | the search ends with the target found | high, not executed | Searches.FindByIDAsWritten | Searches.FindByID |
| src/simulation/objects/Bot.cpp:206 | the reach test in ID mode uses the search limit, not the target's distance | a radius-10 bot attacks by ID a target 20 units away: it is hit | only targets within the two radii are hit | high, not executed | Searches.StaleReachExample | Searches.IDChoice |
