/** The object searches of a bot, over a snapshot of the searched chunks'
    object sets (in queue or vector order) and the objects themselves: the
    nearest-target and by-ID searches of `actionAttack`/`actionEat`, their
    reach test, and the perception pass of `packProtocol`. A set is iterated
    in no particular order, as an `unordered_set` is. */
module Searches {
  import opened Wrappers
  import opened Vectors
  import opened Objects
  import Protocol

  /** Every ID held by one of the chunk sets. */
  function Union(sets: seq<set<nat>>): set<nat>
  {
    if |sets| == 0 then {} else Union(sets[..|sets| - 1]) + sets[|sets| - 1]
  }

  /** An ID is in the union exactly when some chunk set holds it. */
  lemma {:induction false} UnionMember(sets: seq<set<nat>>, k: nat)
    ensures k in Union(sets) <==> exists i :: 0 <= i < |sets| && k in sets[i]
  {
    if |sets| > 0 {
      var init := sets[..|sets| - 1];
      UnionMember(init, k);
      if k in Union(init) {
        var i :| 0 <= i < |init| && k in init[i];
        assert k in sets[i];
      }
      if exists i :: 0 <= i < |sets| && k in sets[i] {
        var i :| 0 <= i < |sets| && k in sets[i];
        if i < |sets| - 1 {
          assert k in init[i];
        }
      }
    }
  }

  lemma UnionStep(sets: seq<set<nat>>, i: nat)
    requires i < |sets|
    ensures Union(sets[..i + 1]) == Union(sets[..i]) + sets[i]
  {
    assert sets[..i + 1][..i] == sets[..i];
  }

  /** The distance the searches compare: squared, from `pos` to the object
      (only ever asked of a live object; 0 otherwise). */
  function SqrDistance(arena: map<nat, Entity>, pos: Vec2, k: nat): real
  {
    if k in arena then pos.SqrDistanceTo(arena[k].pos) else 0.0
  }

  /** The objects of `s` a nearest-mode search for `kind` by the bot `self`
      may pick: live, of that kind, and not the bot itself. */
  function Wanted(s: set<nat>, arena: map<nat, Entity>, kind: ObjectType, self: nat): set<nat>
  {
    set k | k in s && k in arena && Type(arena[k]) == kind && k != self
  }

  /** A running choice: the object chosen so far, and `minDistance`. */
  datatype Choice = Choice(best: Option<nat>, distance: real)

  /** What the nearest-mode search promises over the candidates `s`: with no
      choice, `minDistance` is still the starting `limit` and no candidate
      is strictly closer than it; otherwise the choice is a candidate strictly
      closer than `limit`, no candidate is closer than it, and `minDistance`
      is its squared distance. */
  ghost predicate NearestBelow(c: Choice, s: set<nat>, arena: map<nat, Entity>, pos: Vec2, limit: real)
  {
    && (c.best.None? ==> c.distance == limit && forall k :: k in s ==> SqrDistance(arena, pos, k) >= limit)
    && (c.best.Some? ==>
          && c.best.value in s
          && c.distance == SqrDistance(arena, pos, c.best.value) < limit
          && forall k :: k in s ==> c.distance <= SqrDistance(arena, pos, k))
  }

  /** The inner loop of the nearest-mode search over one chunk's objects:
      a candidate replaces the choice only when strictly closer. */
  method ScanNearest(s: set<nat>, arena: map<nat, Entity>, pos: Vec2, kind: ObjectType, self: nat,
                     c0: Choice, ghost seen: set<nat>, limit: real) returns (c: Choice)
    requires NearestBelow(c0, seen, arena, pos, limit)
    ensures NearestBelow(c, seen + Wanted(s, arena, kind, self), arena, pos, limit)
  {
    c := c0;
    var rest := s;
    while rest != {}
      invariant rest <= s
      invariant NearestBelow(c, seen + Wanted(s - rest, arena, kind, self), arena, pos, limit)
      decreases rest
    {
      var k :| k in rest;
      if k in arena && k != self && Type(arena[k]) == kind && SqrDistance(arena, pos, k) < c.distance {
        c := Choice(Some(k), SqrDistance(arena, pos, k));
      }
      assert Wanted(s - (rest - {k}), arena, kind, self)
        == Wanted(s - rest, arena, kind, self) + Wanted({k}, arena, kind, self);
      rest := rest - {k};
    }
    assert s - {} == s;
  }

  /** The nearest-mode search of `actionAttack`/`actionEat`: `minDistance`
      starts at `limit` (ten chunk sizes) and the loop drains the queue of
      chunks. */
  method FindNearest(sets: seq<set<nat>>, arena: map<nat, Entity>, pos: Vec2, kind: ObjectType,
                     self: nat, limit: real) returns (c: Choice)
    ensures NearestBelow(c, Wanted(Union(sets), arena, kind, self), arena, pos, limit)
  {
    c := Choice(None, limit);
    var i := 0;
    while i < |sets|
      invariant 0 <= i <= |sets|
      invariant NearestBelow(c, Wanted(Union(sets[..i]), arena, kind, self), arena, pos, limit)
    {
      c := ScanNearest(sets[i], arena, pos, kind, self, c, Wanted(Union(sets[..i]), arena, kind, self), limit);
      UnionStep(sets, i);
      assert Wanted(Union(sets[..i + 1]), arena, kind, self)
        == Wanted(Union(sets[..i]), arena, kind, self) + Wanted(sets[i], arena, kind, self);
      i := i + 1;
    }
    assert sets[..|sets|] == sets;
  }

  /** The target of an ID-mode search: the object with that ID if it is in
      one of the searched chunks and of the wanted kind. The bot itself is not
      excluded. */
  function ByID(sets: seq<set<nat>>, arena: map<nat, Entity>, kind: ObjectType, target: nat): Option<nat>
  {
    if target in Union(sets) && target in arena && Type(arena[target]) == kind then Some(target) else None
  }

  /** The ID-mode search as evidently intended: the queue is drained until
      a chunk holds the ID; a kind mismatch there means no target. */
  method FindByID(sets: seq<set<nat>>, arena: map<nat, Entity>, kind: ObjectType, target: nat)
    returns (found: Option<nat>)
    ensures found == ByID(sets, arena, kind, target)
    ensures found.Some? ==> found.value == target && target in arena && Type(arena[target]) == kind
  {
    found := None;
    var i := 0;
    while i < |sets|
      invariant 0 <= i <= |sets|
      invariant target !in Union(sets[..i]) || target !in arena
    {
      UnionStep(sets, i);
      if target in sets[i] && target in arena {
        if Type(arena[target]) == kind {
          found := Some(target);
        }
        UnionMember(sets, target);
        return;
      }
      i := i + 1;
    }
    assert sets[..|sets|] == sets;
  }

  /** The ID-mode search as written: on a match the queue is replaced by an
      empty one, the inner loop breaks, and the outer loop then pops the
      empty queue, which is undefined behaviour. So it either finds nothing
      or fails; it never returns a target. */
  method FindByIDAsWritten(sets: seq<set<nat>>, arena: map<nat, Entity>, kind: ObjectType, target: nat)
    returns (r: Result<Option<nat>>)
    ensures r.Err? <==> target in Union(sets) && target in arena
    ensures r.Err? ==> r.error == UndefinedBehaviour
    ensures r.Ok? ==> r.value == None
  {
    var queue := sets;
    var found: Option<nat> := None;
    ghost var popped := 0;
    while queue != []
      invariant 0 <= popped <= |sets| && queue == sets[popped..]
      invariant target !in Union(sets[..popped]) || target !in arena
      invariant found == None
      decreases |queue|
    {
      UnionStep(sets, popped);
      if target in queue[0] && target in arena {
        if Type(arena[target]) == kind {
          found := Some(target);
        }
        queue := [];
        // `chunksToCheck.pop()` on the emptied queue
        UnionMember(sets, target);
        return Err(UndefinedBehaviour);
      }
      queue := queue[1..];
      popped := popped + 1;
    }
    assert sets[..|sets|] == sets;
    r := Ok(found);
  }

  /** The reach test of `actionAttack`/`actionEat`: the squared distance at
      most the square of the two radii summed (an integer). */
  predicate InReach(sqrDistance: real, radius: int, targetRadius: int)
  {
    sqrDistance <= ((radius + targetRadius) * (radius + targetRadius)) as real
  }

  /** The choice an ID search hands to the reach test, as written: the
      target, with `minDistance` still at its starting value `limit`, because
      the ID branch never lowers it. */
  function IDChoiceAsWritten(sets: seq<set<nat>>, arena: map<nat, Entity>, kind: ObjectType,
                             target: nat, limit: real): Choice
  {
    Choice(ByID(sets, arena, kind, target), limit)
  }

  /** The choice the reach test is meant to get from an ID search: the
      target with its own squared distance. */
  function IDChoice(sets: seq<set<nat>>, arena: map<nat, Entity>, kind: ObjectType,
                    target: nat, pos: Vec2, limit: real): (c: Choice)
    ensures c.best == ByID(sets, arena, kind, target)
    ensures c.best.Some? ==> c.distance == pos.SqrDistanceTo(arena[target].pos)
    ensures c.best.None? ==> c.distance == limit
  {
    var found := ByID(sets, arena, kind, target);
    Choice(found, if found.Some? then SqrDistance(arena, pos, target) else limit)
  }

  lemma SingleChunkFinds(arena: map<nat, Entity>)
    requires 1 in arena && Type(arena[1]) == BaseObject
    ensures ByID([{1}], arena, BaseObject, 1) == Some(1)
  {
    assert Union([{1}]) == Union([{1}][..0]) + {1};
  }

  /** With 10-unit chunks (`limit` 100), a radius-10 bot at the origin
      searching by ID for a target 20 units away: the test as written reaches
      it, the intended test does not. */
  lemma StaleReachExample(arena: map<nat, Entity>)
    requires arena == map[1 := Entity(Vec2(20.0, 0.0), 0, None, Base)]
    ensures IDChoiceAsWritten([{1}], arena, BaseObject, 1, 100.0).best == Some(1)
    ensures InReach(IDChoiceAsWritten([{1}], arena, BaseObject, 1, 100.0).distance, 10, 0)
    ensures !InReach(IDChoice([{1}], arena, BaseObject, 1, Vec2(0.0, 0.0), 100.0).distance, 10, 0)
  {
    SingleChunkFinds(arena);
    TwentyApart();
    assert IDChoice([{1}], arena, BaseObject, 1, Vec2(0.0, 0.0), 100.0).distance == 400.0;
    TenReaches();
  }

  lemma TenReaches()
    ensures InReach(100.0, 10, 0) && !InReach(400.0, 10, 0)
  {
    assert ((10 + 0) * (10 + 0)) as real == 100.0;
  }

  lemma TwentyApart()
    ensures Vec2(0.0, 0.0).SqrDistanceTo(Vec2(20.0, 0.0)) == 400.0
  {
    var v := Vec2(0.0, 0.0).Sub(Vec2(20.0, 0.0));
    assert v == Vec2(-20.0, 0.0);
    assert v.SqrLength() == -20.0 * -20.0 + 0.0 * 0.0;
  }

  /** And the other way: two radius-1 objects at the same spot do not reach
      each other as written, but do under the intended test. */
  lemma StaleReachMisses(here: map<nat, Entity>)
    requires here == map[1 := Entity(Vec2(0.0, 0.0), 1, None, Base)]
    ensures !InReach(IDChoiceAsWritten([{1}], here, BaseObject, 1, 100.0).distance, 1, 1)
    ensures InReach(IDChoice([{1}], here, BaseObject, 1, Vec2(0.0, 0.0), 100.0).distance, 1, 1)
  {
    SingleChunkFinds(here);
    assert Vec2(0.0, 0.0).Sub(Vec2(0.0, 0.0)) == Vec2(0.0, 0.0);
  }

  /** Whether `packProtocol` perceives object `k` as `kind`: live, not the
      bot itself, of that kind, and strictly closer than the see distance. */
  predicate Qualifies(arena: map<nat, Entity>, self: nat, pos: Vec2, sqrSeeDistance: int, kind: ObjectType, k: nat)
  {
    k in arena && k != self && Type(arena[k]) == kind && SqrDistance(arena, pos, k) < sqrSeeDistance as real
  }

  /** The objects of `s` that `packProtocol` perceives as `kind`. */
  function Perceived(s: set<nat>, arena: map<nat, Entity>, self: nat, pos: Vec2, sqrSeeDistance: int,
                     kind: ObjectType): set<nat>
  {
    set k | k in s && Qualifies(arena, self, pos, sqrSeeDistance, kind, k)
  }

  /** What is perceived among two sets together is what is perceived among
      each. */
  lemma PerceivedUnion(a: set<nat>, b: set<nat>, arena: map<nat, Entity>, self: nat, pos: Vec2, sqrSeeDistance: int,
                       kind: ObjectType)
    ensures Perceived(a + b, arena, self, pos, sqrSeeDistance, kind)
      == Perceived(a, arena, self, pos, sqrSeeDistance, kind) + Perceived(b, arena, self, pos, sqrSeeDistance, kind)
  {
  }

  lemma PerceivedAdd(s: set<nat>, arena: map<nat, Entity>, self: nat, pos: Vec2, sqrSeeDistance: int,
                     kind: ObjectType, k: nat)
    ensures Perceived(s + {k}, arena, self, pos, sqrSeeDistance, kind)
      == Perceived(s, arena, self, pos, sqrSeeDistance, kind)
         + (if Qualifies(arena, self, pos, sqrSeeDistance, kind, k) then {k} else {})
  {
  }

  /** What `packProtocol` promises about one kind, while the distance is
      still squared: -1 and no object exactly when nothing of that kind is
      perceived, otherwise a perceived object no other is closer than, at its
      squared distance. */
  ghost predicate NearestOf(c: Choice, s: set<nat>, arena: map<nat, Entity>, pos: Vec2)
  {
    && (c.best.None? <==> s == {})
    && (c.best.None? ==> c.distance == -1.0)
    && (c.best.Some? ==>
          && c.best.value in s
          && c.distance == SqrDistance(arena, pos, c.best.value)
          && forall k :: k in s ==> c.distance <= SqrDistance(arena, pos, k))
  }

  /** One step of `packProtocol` for one kind: the first object, or one
      strictly closer than the current one, becomes the nearest. */
  function Nearer(c: Choice, k: nat, d: real): Choice
  {
    if c.distance == -1.0 || d < c.distance then Choice(Some(k), d) else c
  }

  /** The tracker of one kind after object `k` was looked at. */
  function Offer(c: Choice, arena: map<nat, Entity>, self: nat, pos: Vec2, sqrSeeDistance: int,
                 kind: ObjectType, k: nat): Choice
  {
    if Qualifies(arena, self, pos, sqrSeeDistance, kind, k) then Nearer(c, k, SqrDistance(arena, pos, k)) else c
  }

  lemma NearerKeepsNearest(c: Choice, s: set<nat>, arena: map<nat, Entity>, pos: Vec2, k: nat)
    requires k in arena && NearestOf(c, s, arena, pos)
    ensures NearestOf(Nearer(c, k, SqrDistance(arena, pos, k)), s + {k}, arena, pos)
  {
    SqrDistanceNonNeg(arena, pos, k);
  }

  lemma OfferKeepsNearest(c: Choice, before: set<nat>, arena: map<nat, Entity>, self: nat, pos: Vec2,
                          sqrSeeDistance: int, kind: ObjectType, k: nat)
    requires NearestOf(c, Perceived(before, arena, self, pos, sqrSeeDistance, kind), arena, pos)
    ensures NearestOf(Offer(c, arena, self, pos, sqrSeeDistance, kind, k),
                      Perceived(before + {k}, arena, self, pos, sqrSeeDistance, kind), arena, pos)
  {
    PerceivedAdd(before, arena, self, pos, sqrSeeDistance, kind, k);
    if Qualifies(arena, self, pos, sqrSeeDistance, kind, k) {
      NearerKeepsNearest(c, Perceived(before, arena, self, pos, sqrSeeDistance, kind), arena, pos, k);
    }
  }

  lemma SqrDistanceNonNeg(arena: map<nat, Entity>, pos: Vec2, k: nat)
    ensures SqrDistance(arena, pos, k) >= 0.0
  {
    if k in arena {
      var d := arena[k].pos;
      SquaresNonNeg(pos.x - d.x, pos.y - d.y);
    }
  }

  lemma SquaresNonNeg(a: real, b: real)
    ensures a * a + b * b >= 0.0
  {
  }

  /** The body of the perception loop for one object: a perceived food,
      tree or bot is offered to the tracker of its kind and made visible; a
      base object, the bot itself, and anything at or beyond the see distance
      are skipped. */
  method LookAt(arena: map<nat, Entity>, self: nat, pos: Vec2, sqrSeeDistance: int, k: nat,
                food0: Choice, tree0: Choice, bot0: Choice)
    returns (food: Choice, tree: Choice, bot: Choice, visible: set<nat>)
    ensures food == Offer(food0, arena, self, pos, sqrSeeDistance, FoodObject, k)
    ensures tree == Offer(tree0, arena, self, pos, sqrSeeDistance, TreeObject, k)
    ensures bot == Offer(bot0, arena, self, pos, sqrSeeDistance, BotObject, k)
    ensures visible == (if Qualifies(arena, self, pos, sqrSeeDistance, FoodObject, k)
                           || Qualifies(arena, self, pos, sqrSeeDistance, TreeObject, k)
                           || Qualifies(arena, self, pos, sqrSeeDistance, BotObject, k) then {k} else {})
  {
    food, tree, bot, visible := food0, tree0, bot0, {};
    if k in arena {
      var d := SqrDistance(arena, pos, k);
      if d < sqrSeeDistance as real && k != self {
        match Type(arena[k])
        case BaseObject =>
        case FoodObject =>
          food := Nearer(food, k, d);
          visible := {k};
        case TreeObject =>
          tree := Nearer(tree, k, d);
          visible := {k};
        case BotObject =>
          bot := Nearer(bot, k, d);
          visible := {k};
      }
    }
  }

  /** The perception loop over one chunk's objects. */
  method ScanPerceived(s: set<nat>, arena: map<nat, Entity>, self: nat, pos: Vec2, sqrSeeDistance: int,
                       food0: Choice, tree0: Choice, bot0: Choice, ghost seen: set<nat>)
    returns (food: Choice, tree: Choice, bot: Choice, visible: set<nat>)
    requires NearestOf(food0, Perceived(seen, arena, self, pos, sqrSeeDistance, FoodObject), arena, pos)
    requires NearestOf(tree0, Perceived(seen, arena, self, pos, sqrSeeDistance, TreeObject), arena, pos)
    requires NearestOf(bot0, Perceived(seen, arena, self, pos, sqrSeeDistance, BotObject), arena, pos)
    ensures NearestOf(food, Perceived(seen + s, arena, self, pos, sqrSeeDistance, FoodObject), arena, pos)
    ensures NearestOf(tree, Perceived(seen + s, arena, self, pos, sqrSeeDistance, TreeObject), arena, pos)
    ensures NearestOf(bot, Perceived(seen + s, arena, self, pos, sqrSeeDistance, BotObject), arena, pos)
    ensures visible == Perceived(s, arena, self, pos, sqrSeeDistance, FoodObject)
      + Perceived(s, arena, self, pos, sqrSeeDistance, TreeObject)
      + Perceived(s, arena, self, pos, sqrSeeDistance, BotObject)
  {
    food, tree, bot, visible := food0, tree0, bot0, {};
    var rest := s;
    ghost var done: set<nat> := {};
    ghost var before := seen;
    while rest != {}
      invariant done + rest == s && before == seen + done
      invariant NearestOf(food, Perceived(before, arena, self, pos, sqrSeeDistance, FoodObject), arena, pos)
      invariant NearestOf(tree, Perceived(before, arena, self, pos, sqrSeeDistance, TreeObject), arena, pos)
      invariant NearestOf(bot, Perceived(before, arena, self, pos, sqrSeeDistance, BotObject), arena, pos)
      invariant visible == Perceived(done, arena, self, pos, sqrSeeDistance, FoodObject)
        + Perceived(done, arena, self, pos, sqrSeeDistance, TreeObject)
        + Perceived(done, arena, self, pos, sqrSeeDistance, BotObject)
      decreases rest
    {
      var k :| k in rest;
      ScanStep(food, tree, bot, before, done, arena, self, pos, sqrSeeDistance, k);
      var more: set<nat>;
      food, tree, bot, more := LookAt(arena, self, pos, sqrSeeDistance, k, food, tree, bot);
      visible := visible + more;
      rest := rest - {k};
      done := done + {k};
      before := before + {k};
    }
  }

  lemma ScanStep(food: Choice, tree: Choice, bot: Choice, before: set<nat>, done: set<nat>,
                 arena: map<nat, Entity>, self: nat, pos: Vec2, sqrSeeDistance: int, k: nat)
    requires NearestOf(food, Perceived(before, arena, self, pos, sqrSeeDistance, FoodObject), arena, pos)
    requires NearestOf(tree, Perceived(before, arena, self, pos, sqrSeeDistance, TreeObject), arena, pos)
    requires NearestOf(bot, Perceived(before, arena, self, pos, sqrSeeDistance, BotObject), arena, pos)
    ensures NearestOf(Offer(food, arena, self, pos, sqrSeeDistance, FoodObject, k),
                      Perceived(before + {k}, arena, self, pos, sqrSeeDistance, FoodObject), arena, pos)
    ensures NearestOf(Offer(tree, arena, self, pos, sqrSeeDistance, TreeObject, k),
                      Perceived(before + {k}, arena, self, pos, sqrSeeDistance, TreeObject), arena, pos)
    ensures NearestOf(Offer(bot, arena, self, pos, sqrSeeDistance, BotObject, k),
                      Perceived(before + {k}, arena, self, pos, sqrSeeDistance, BotObject), arena, pos)
    ensures Perceived(done + {k}, arena, self, pos, sqrSeeDistance, FoodObject)
      + Perceived(done + {k}, arena, self, pos, sqrSeeDistance, TreeObject)
      + Perceived(done + {k}, arena, self, pos, sqrSeeDistance, BotObject)
      == Perceived(done, arena, self, pos, sqrSeeDistance, FoodObject)
      + Perceived(done, arena, self, pos, sqrSeeDistance, TreeObject)
      + Perceived(done, arena, self, pos, sqrSeeDistance, BotObject)
      + (if Qualifies(arena, self, pos, sqrSeeDistance, FoodObject, k)
            || Qualifies(arena, self, pos, sqrSeeDistance, TreeObject, k)
            || Qualifies(arena, self, pos, sqrSeeDistance, BotObject, k) then {k} else {})
  {
    OfferKeepsNearest(food, before, arena, self, pos, sqrSeeDistance, FoodObject, k);
    OfferKeepsNearest(tree, before, arena, self, pos, sqrSeeDistance, TreeObject, k);
    OfferKeepsNearest(bot, before, arena, self, pos, sqrSeeDistance, BotObject, k);
    PerceivedAdd(done, arena, self, pos, sqrSeeDistance, FoodObject, k);
    PerceivedAdd(done, arena, self, pos, sqrSeeDistance, TreeObject, k);
    PerceivedAdd(done, arena, self, pos, sqrSeeDistance, BotObject, k);
  }

  /** The shape of the record `packProtocol` leaves, kind by kind: the
      nearest perceived object and the square root of its squared distance,
      or null and -1. */
  ghost predicate Reports(o: Option<nat>, distance: real, s: set<nat>, arena: map<nat, Entity>, pos: Vec2,
                          sqrt: real -> real)
  {
    && (o.None? <==> s == {})
    && (o.None? ==> distance == -1.0)
    && (o.Some? ==>
          && o.value in s
          && distance == sqrt(SqrDistance(arena, pos, o.value))
          && forall k :: k in s ==> SqrDistance(arena, pos, o.value) <= SqrDistance(arena, pos, k))
  }

  /** `sqrtf` of a distance that is not the sentinel. */
  function Rooted(c: Choice, sqrt: real -> real): real
  {
    if c.distance != -1.0 then sqrt(c.distance) else c.distance
  }

  /** `packProtocol`: clears the record's perception fields, scans the chunks
      in vision in order, then takes the square root of every distance that is
      not the sentinel. `nearestEnemy` is never filled. The body is left as
      `setID` published it. */
  method PackProtocol(sets: seq<set<nat>>, arena: map<nat, Entity>, self: nat, pos: Vec2,
                      sqrSeeDistance: int, sqrt: real -> real, previous: Protocol.UpdateProtocol)
    returns (p: Protocol.UpdateProtocol)
    requires SqrtSound(sqrt)
    ensures p.body == previous.body
    ensures p.visibleObjects == Perceived(Union(sets), arena, self, pos, sqrSeeDistance, FoodObject)
      + Perceived(Union(sets), arena, self, pos, sqrSeeDistance, TreeObject)
      + Perceived(Union(sets), arena, self, pos, sqrSeeDistance, BotObject)
    ensures Reports(p.nearestFood, p.distanceToNearestFood,
                    Perceived(Union(sets), arena, self, pos, sqrSeeDistance, FoodObject), arena, pos, sqrt)
    ensures Reports(p.nearestTree, p.distanceToNearestTree,
                    Perceived(Union(sets), arena, self, pos, sqrSeeDistance, TreeObject), arena, pos, sqrt)
    ensures Reports(p.nearestBot, p.distanceToNearestBot,
                    Perceived(Union(sets), arena, self, pos, sqrSeeDistance, BotObject), arena, pos, sqrt)
    ensures p.nearestEnemy == None && p.distanceToNearestEnemy == -1.0
    ensures Protocol.SentinelsAgree(p)
  {
    var food, tree, bot, visible := ScanAll(sets, arena, self, pos, sqrSeeDistance);
    p := previous.(
      visibleObjects := visible,
      nearestBot := bot.best, distanceToNearestBot := Rooted(bot, sqrt),
      nearestEnemy := None, distanceToNearestEnemy := -1.0,
      nearestFood := food.best, distanceToNearestFood := Rooted(food, sqrt),
      nearestTree := tree.best, distanceToNearestTree := Rooted(tree, sqrt));
    RootedReports(food, Perceived(Union(sets), arena, self, pos, sqrSeeDistance, FoodObject), arena, pos, sqrt);
    RootedReports(tree, Perceived(Union(sets), arena, self, pos, sqrSeeDistance, TreeObject), arena, pos, sqrt);
    RootedReports(bot, Perceived(Union(sets), arena, self, pos, sqrSeeDistance, BotObject), arena, pos, sqrt);
  }

  /** The scan of `updateProtocol`: the chunks' sets one after the other,
      tracking the nearest food, tree and bot and collecting what is seen. */
  method ScanAll(sets: seq<set<nat>>, arena: map<nat, Entity>, self: nat, pos: Vec2, sqrSeeDistance: int)
    returns (food: Choice, tree: Choice, bot: Choice, visible: set<nat>)
    ensures NearestOf(food, Perceived(Union(sets), arena, self, pos, sqrSeeDistance, FoodObject), arena, pos)
    ensures NearestOf(tree, Perceived(Union(sets), arena, self, pos, sqrSeeDistance, TreeObject), arena, pos)
    ensures NearestOf(bot, Perceived(Union(sets), arena, self, pos, sqrSeeDistance, BotObject), arena, pos)
    ensures visible == Perceived(Union(sets), arena, self, pos, sqrSeeDistance, FoodObject)
      + Perceived(Union(sets), arena, self, pos, sqrSeeDistance, TreeObject)
      + Perceived(Union(sets), arena, self, pos, sqrSeeDistance, BotObject)
  {
    food, tree, bot := Choice(None, -1.0), Choice(None, -1.0), Choice(None, -1.0);
    visible := {};
    var i := 0;
    ghost var seen: set<nat> := {};
    while i < |sets|
      invariant 0 <= i <= |sets| && seen == Union(sets[..i])
      invariant NearestOf(food, Perceived(seen, arena, self, pos, sqrSeeDistance, FoodObject), arena, pos)
      invariant NearestOf(tree, Perceived(seen, arena, self, pos, sqrSeeDistance, TreeObject), arena, pos)
      invariant NearestOf(bot, Perceived(seen, arena, self, pos, sqrSeeDistance, BotObject), arena, pos)
      invariant visible == Perceived(seen, arena, self, pos, sqrSeeDistance, FoodObject)
        + Perceived(seen, arena, self, pos, sqrSeeDistance, TreeObject)
        + Perceived(seen, arena, self, pos, sqrSeeDistance, BotObject)
    {
      UnionStep(sets, i);
      PerceivedUnion(seen, sets[i], arena, self, pos, sqrSeeDistance, FoodObject);
      PerceivedUnion(seen, sets[i], arena, self, pos, sqrSeeDistance, TreeObject);
      PerceivedUnion(seen, sets[i], arena, self, pos, sqrSeeDistance, BotObject);
      var more: set<nat>;
      food, tree, bot, more := ScanPerceived(sets[i], arena, self, pos, sqrSeeDistance, food, tree, bot, seen);
      visible := visible + more;
      seen := seen + sets[i];
      i := i + 1;
    }
    assert sets[..|sets|] == sets;
  }

  /** Rooting a tracked nearest gives the reported record, and a reported
      distance is -1 only for the sentinel. */
  lemma RootedReports(c: Choice, s: set<nat>, arena: map<nat, Entity>, pos: Vec2, sqrt: real -> real)
    requires SqrtSound(sqrt) && NearestOf(c, s, arena, pos)
    ensures Reports(c.best, Rooted(c, sqrt), s, arena, pos, sqrt)
    ensures Rooted(c, sqrt) == -1.0 <==> c.best.None?
  {
    if c.best.Some? {
      SqrDistanceNonNeg(arena, pos, c.best.value);
      assert 0.0 <= sqrt(c.distance);
    }
  }
}
