/** The simulation manager: the object list in insertion order, the objects
    themselves keyed by ID, the deferred death and birth queues, the ID
    manager and the chunk grid; how objects are added, updated each tick and
    destroyed after it; and the rules of every kind of object that read or
    change the rest of the world (a tree's fruit, a bot's perception and
    actions, a dead bot's deposit). */
module Simulations {
  import opened Wrappers
  import opened Vectors
  import opened Objects
  import opened Chunks
  import IDs
  import EvolutionPoints
  import Protocol
  import Foods
  import Trees
  import Bots
  import Searches
  import Areas
  import RangeValues

  /** One entry of the birth queue: the brain, the position and the points. */
  datatype Birth = Birth(brain: nat, pos: Vec2, evolutionPoints: int)

  /** What the update of one object went through: for a bot, the objects
      after its `Think`, the protocol it packed and what its search found;
      for a tree, the fruit it spawned. */
  datatype Trace = Trace(thought: map<nat, Entity>, protocol: Protocol.UpdateProtocol, choice: Searches.Choice,
                         added: seq<nat>)

  /** The trace of an update that neither thinks nor spawns. */
  const NoTrace := Trace(map[], Protocol.EmptyProtocol, Searches.Choice(None, 0.0), [])

  /** A new object as `addObjectToSimulation` leaves it: its chunk set and,
      for a bot, `setID` publishing its shadow as the body of its perception
      record. */
  function Adopted(e: Entity, id: nat, r: ChunkRef): (e': Entity)
    ensures e'.pos == e.pos && e'.radius == e.radius && e'.chunk == Some(r)
    ensures Type(e') == Type(e)
    ensures !e.body.Bot? ==> e'.body == e.body
    ensures e.body.Bot? ==> e'.body.Bot? && e'.body.bot.brain == e.body.bot.brain
  {
    match e.body
    case Bot(b) =>
      SetChunk(e, r).(body := Bot(b.(protocol := b.protocol.(body := Some(Bots.Shadow(id, b, b.seeDistance, e.pos))))))
    case _ => SetChunk(e, r)
  }

  /** The object list without the given IDs, order kept. */
  function Without(s: seq<nat>, gone: set<nat>): (r: seq<nat>)
    ensures forall k :: k in r <==> k in s && k !in gone
  {
    if |s| == 0 then []
    else Without(s[..|s| - 1], gone) + (if s[|s| - 1] in gone then [] else [s[|s| - 1]])
  }

  /** Filtering a concatenation filters each part. */
  lemma {:induction false} WithoutConcat(a: seq<nat>, b: seq<nat>, gone: set<nat>)
    ensures Without(a + b, gone) == Without(a, gone) + Without(b, gone)
  {
    if |b| == 0 {
      assert a + b == a;
    } else {
      assert (a + b)[..|a + b| - 1] == a + b[..|b| - 1];
      WithoutConcat(a, b[..|b| - 1], gone);
    }
  }

  /** Nothing to remove: the list is unchanged. */
  lemma {:induction false} WithoutNothing(s: seq<nat>, gone: set<nat>)
    requires forall i :: 0 <= i < |s| ==> s[i] !in gone
    ensures Without(s, gone) == s
  {
    if |s| > 0 {
      WithoutNothing(s[..|s| - 1], gone);
      assert s[..|s| - 1] + [s[|s| - 1]] == s;
    }
  }

  /** Removing in two rounds is removing the union. */
  lemma {:induction false} WithoutTwice(s: seq<nat>, gone: set<nat>, more: set<nat>)
    ensures Without(Without(s, gone), more) == Without(s, gone + more)
  {
    if |s| > 0 {
      var p := s[..|s| - 1];
      var x := s[|s| - 1];
      WithoutTwice(p, gone, more);
      WithoutConcat(Without(p, gone), if x in gone then [] else [x], more);
      assert [x][..0] == [];
      assert Without([], more) == [];
    }
  }

  /** A list without repeats stays without repeats when filtered. */
  lemma {:induction false} WithoutDistinct(s: seq<nat>, gone: set<nat>)
    requires forall i, j :: 0 <= i < j < |s| ==> s[i] != s[j]
    ensures var r := Without(s, gone); forall i, j :: 0 <= i < j < |r| ==> r[i] != r[j]
  {
    if |s| > 0 {
      var p := s[..|s| - 1];
      var x := s[|s| - 1];
      WithoutDistinct(p, gone);
      assert p + [x] == s;
      assert x !in p;
      assert x !in Without(p, gone);
      var r := Without(s, gone);
      assert r == Without(p, gone) + (if x in gone then [] else [x]);
      forall i, j | 0 <= i < j < |r|
        ensures r[i] != r[j]
      {
        if j == |r| - 1 && x !in gone {
          assert r[i] in Without(p, gone);
        }
      }
    }
  }

  /** `std::find` then `erase`: the first occurrence of `k`, if any, is
      removed and the rest keep their order. In a list without repeats that
      is the list without `k`. */
  method EraseFirst(s: seq<nat>, k: nat) returns (r: seq<nat>, ghost at: int)
    ensures k !in s ==> r == s
    ensures k in s ==> 0 <= at < |s| && s[at] == k && k !in s[..at] && r == s[..at] + s[at + 1..]
    ensures (forall i, j :: 0 <= i < j < |s| ==> s[i] != s[j]) ==> r == Without(s, {k})
  {
    var i := 0;
    while i < |s| && s[i] != k
      invariant 0 <= i <= |s| && k !in s[..i]
    {
      i := i + 1;
    }
    at := i;
    if i == |s| {
      assert s[..i] == s;
      r := s;
      WithoutNothing(s, {k});
    } else {
      r := s[..i] + s[i + 1..];
      if forall i, j :: 0 <= i < j < |s| ==> s[i] != s[j] {
        Alone(s, i);
        EraseAt(s, i);
      }
    }
  }

  /** `EraseFirst` on a list without repeats: the list without `k`, still
      without repeats. */
  method EraseUnique(s: seq<nat>, k: nat) returns (r: seq<nat>)
    requires forall i, j :: 0 <= i < j < |s| ==> s[i] != s[j]
    ensures r == Without(s, {k}) && k !in r
    ensures forall i, j :: 0 <= i < j < |r| ==> r[i] != r[j]
  {
    ghost var at;
    r, at := EraseFirst(s, k);
    WithoutDistinct(s, {k});
  }

  /** Cutting out the one occurrence of `s[i]` is filtering it out. */
  lemma EraseAt(s: seq<nat>, i: int)
    requires 0 <= i < |s| && s[i] !in s[..i] && s[i] !in s[i + 1..]
    ensures s[..i] + s[i + 1..] == Without(s, {s[i]})
  {
    Split(s, i);
    Unwanted(s[..i], s[i], s[i + 1..]);
  }

  /** Appending a new entry keeps a list without repeats. */
  lemma SnocDistinct(s: seq<nat>, k: nat)
    requires k !in s && forall i, j :: 0 <= i < j < |s| ==> s[i] != s[j]
    ensures forall i, j :: 0 <= i < j < |s + [k]| ==> (s + [k])[i] != (s + [k])[j]
  {
  }

  lemma Split(s: seq<nat>, i: int)
    requires 0 <= i < |s|
    ensures s == s[..i] + [s[i]] + s[i + 1..]
  {
  }

  /** In a list without repeats an entry occurs neither before nor after
      its own place. */
  lemma Alone(s: seq<nat>, i: int)
    requires 0 <= i < |s| && forall i, j :: 0 <= i < j < |s| ==> s[i] != s[j]
    ensures s[i] !in s[..i] && s[i] !in s[i + 1..]
  {
    forall j | 0 <= j < i
      ensures s[..i][j] != s[i]
    {
    }
    var after := s[i + 1..];
    forall j | 0 <= j < |after|
      ensures after[j] != s[i]
    {
      assert after[j] == s[i + 1 + j];
    }
  }

  lemma Unwanted(front: seq<nat>, k: nat, back: seq<nat>)
    requires k !in front && k !in back
    ensures Without(front + [k] + back, {k}) == front + back
  {
    calc {
      Without(front + [k] + back, {k});
    == { WithoutConcat(front + [k], back, {k}); }
      Without(front + [k], {k}) + Without(back, {k});
    == { WithoutConcat(front, [k], {k}); }
      Without(front, {k}) + Without([k], {k}) + Without(back, {k});
    == { WithoutNothing(front, {k}); WithoutNothing(back, {k}); WithoutOne(k, {k}); }
      front + [] + back;
    == { assert front + [] == front; }
      front + back;
    }
  }

  lemma WithoutOne(x: nat, gone: set<nat>)
    ensures Without([x], gone) == if x in gone then [] else [x]
  {
    assert [x][..0] == [];
  }

  /** The IDs a queue names. */
  function Members(s: seq<nat>): (r: set<nat>)
    ensures forall j :: j in r <==> j in s
  {
    set j | j in s
  }

  /** One round of the death loop on the object list: with `done` already
      removed and `deposits` appended, removing `k` and appending `deposit`
      (neither naming `k`) is removing `done` and `k` from the original. */
  lemma DeathStep(s: seq<nat>, done: seq<nat>, deposits: seq<nat>, k: nat, deposit: seq<nat>)
    requires k !in deposits && k !in deposit
    ensures Without(Without(s, Members(done)) + deposits, {k}) + deposit
         == Without(s, Members(done + [k])) + (deposits + deposit)
  {
    var gone := Members(done);
    var kept := Without(s, gone);
    var rest := Without(s, gone + {k});
    calc {
      Without(kept + deposits, {k}) + deposit;
    == { WithoutConcat(kept, deposits, {k}); WithoutNothing(deposits, {k}); }
      (Without(kept, {k}) + deposits) + deposit;
    == { WithoutTwice(s, gone, {k}); }
      (rest + deposits) + deposit;
    == { ConcatAssoc(rest, deposits, deposit); }
      rest + (deposits + deposit);
    == { MembersSnoc(done, k); }
      Without(s, Members(done + [k])) + (deposits + deposit);
    }
  }

  lemma ConcatAssoc(a: seq<nat>, b: seq<nat>, c: seq<nat>)
    ensures (a + b) + c == a + (b + c)
  {
  }

  lemma MembersSnoc(s: seq<nat>, k: nat)
    ensures Members(s + [k]) == Members(s) + {k}
  {
  }

  /** The bookkeeping of one death on plain values: with every live ID
      listed or queued and `k`, the front of the death queue, no longer
      listed, popping it and forgetting it unless queued again keeps every
      live ID listed or queued. */
  lemma ForgetListed(objects: seq<nat>, deathNote: seq<nat>, arena: map<nat, Entity>, k: nat)
    requires forall j :: j in arena <==> j in objects || j in deathNote
    requires |deathNote| > 0 && deathNote[0] == k
    requires k !in objects
    ensures var dn := deathNote[1..];
      var ar := if k in dn then arena else arena - {k};
      && (forall j :: j in ar <==> j in objects || j in dn)
      && (forall j :: j in ar ==> arena[j] == ar[j])
  {
    var dn := deathNote[1..];
    forall j | j in deathNote && j != k
      ensures j in dn
    {
      var i :| 0 <= i < |deathNote| && deathNote[i] == j;
      assert dn[i - 1] == j;
    }
  }

  /** Part way through the death loop, started on the arena `a0`: the
      entries `done` are handled and `pending` remain. An object of `a0` is
      still there exactly when it is not handled or still queued, with its
      state unchanged, and the `deposits` are new deposit food. */
  ghost predicate DeathsSoFar(a0: map<nat, Entity>, a: map<nat, Entity>, done: seq<nat>, pending: seq<nat>,
                              deposits: seq<nat>)
  {
    && (forall j :: j in a0 ==> (j in a <==> j !in done || j in pending))
    && (forall j :: j in a0 && j in a ==> a[j] == a0[j])
    && (forall j :: j in a ==> j in a0 || j in deposits)
    && (forall j :: j in deposits ==> j !in a0 && j in a && IsDeposit(a[j]))
  }

  /** One `Bury` keeps `DeathsSoFar`, with its entry handled and its
      deposit added. */
  lemma DeathsStep(a0: map<nat, Entity>, a: map<nat, Entity>, a': map<nat, Entity>, done: seq<nat>,
                   pending: seq<nat>, deposits: seq<nat>, deposit: seq<nat>)
    requires DeathsSoFar(a0, a, done, pending, deposits) && |pending| > 0
    requires forall j :: j in a' <==> (j in a && (j != pending[0] || pending[0] in pending[1..])) || j in deposit
    requires forall j :: j in a && j in a' ==> a'[j] == a[j]
    requires forall j :: j in deposit ==> j !in a0 && j !in a && IsDeposit(a'[j])
    requires pending[0] in a0 && pending[0] in a
    ensures DeathsSoFar(a0, a', done + [pending[0]], pending[1..], deposits + deposit)
  {
    var k := pending[0];
    forall j | j in a0
      ensures j in a' <==> j !in done + [k] || j in pending[1..]
    {
      if j != k && j in pending {
        var n :| 0 <= n < |pending| && pending[n] == j;
        assert pending[1..][n - 1] == j;
      }
    }
  }

  /** The death loop after the first `i` entries of the queue it started
      on: the list `objects0` without them, followed by their `deposits`;
      the objects of `a0` as `DeathsSoFar` says; every ID of `a0` below the
      counter, and the whole queue named in `a0`. */
  ghost predicate Dying(objects: seq<nat>, arena: map<nat, Entity>, deathNote: seq<nat>, counter: nat,
                        objects0: seq<nat>, a0: map<nat, Entity>, queue: seq<nat>, i: nat, deposits: seq<nat>)
  {
    && i <= |queue| && deathNote == queue[i..]
    && objects == Without(objects0, Members(queue[..i])) + deposits
    && DeathsSoFar(a0, arena, queue[..i], deathNote, deposits)
    && (forall j :: j in a0 ==> j < counter)
    && (forall n :: 0 <= n < |queue| ==> queue[n] in a0)
  }

  /** A `Bury` of the front entry, as its contract describes it, moves the
      death loop on by one entry. */
  lemma DyingNext(objects: seq<nat>, arena: map<nat, Entity>, deathNote: seq<nat>, counter: nat,
                  objects': seq<nat>, arena': map<nat, Entity>, deathNote': seq<nat>, counter': nat, deposit: seq<nat>,
                  objects0: seq<nat>, a0: map<nat, Entity>, queue: seq<nat>, i: nat, deposits: seq<nat>)
    requires Dying(objects, arena, deathNote, counter, objects0, a0, queue, i, deposits) && |deathNote| > 0
    requires counter <= counter'
    requires deathNote' == deathNote[1..] && objects' == Without(objects, {deathNote[0]}) + deposit
    requires forall j :: j in arena' <==> (j in arena && (j != deathNote[0] || deathNote[0] in deathNote')) || j in deposit
    requires forall j :: j in arena && j in arena' ==> arena'[j] == arena[j]
    requires forall j :: j in deposit ==> counter <= j && j !in arena && j in arena' && IsDeposit(arena'[j])
    ensures Dying(objects', arena', deathNote', counter', objects0, a0, queue, i + 1, deposits + deposit)
  {
    var k := deathNote[0];
    assert k == queue[i] && k in a0;
    DeathsStep(a0, arena, arena', queue[..i], queue[i..], deposits, deposit);
    DeathStep(objects0, queue[..i], deposits, k, deposit);
    assert queue[..i + 1] == queue[..i] + [k];
  }

  /** What the death loop leaves behind: objects off the queue untouched,
      the deposits new, every ID it started with below the counter, and,
      once the queue is empty, every queued object gone from the arena and
      the list. */
  lemma DyingEnds(objects: seq<nat>, arena: map<nat, Entity>, deathNote: seq<nat>, counter: nat,
                  objects0: seq<nat>, a0: map<nat, Entity>, queue: seq<nat>, i: nat, deposits: seq<nat>)
    requires Dying(objects, arena, deathNote, counter, objects0, a0, queue, i, deposits)
    ensures forall j :: j in a0 && j !in queue ==> j in arena && arena[j] == a0[j]
    ensures forall j :: j in deposits ==> j !in a0 && j in arena && IsDeposit(arena[j])
    ensures forall j :: j in a0 ==> j < counter
    ensures deathNote == [] ==> objects == Without(objects0, Members(queue)) + deposits
    ensures deathNote == [] ==> forall j :: j in queue ==> j !in arena
  {
    forall j | j in a0 && j !in queue
      ensures j in arena && arena[j] == a0[j]
    {
      assert j !in queue[..i];
    }
    if deathNote == [] {
      assert queue[..i] == queue;
    }
  }

  /** The birth loop after `born` entries of the queue it started on: the
      list `objects0` followed by the new IDs, the rest of the queue still
      waiting, the objects of `a0` untouched, and each new ID at least the
      counter `c0` the loop began with and the bot of its entry's brain. */
  ghost predicate Hatching(objects: seq<nat>, arena: map<nat, Entity>, bornQueue: seq<Birth>, counter: nat,
                           objects0: seq<nat>, a0: map<nat, Entity>, c0: nat, queue: seq<Birth>, born: seq<nat>)
  {
    && |born| <= |queue| && objects == objects0 + born && bornQueue == queue[|born|..]
    && (forall j :: j in a0 ==> j in arena && arena[j] == a0[j])
    && (forall j :: j in arena ==> j in a0 || j in born)
    && c0 <= counter && (forall j :: j in born ==> c0 <= j)
    && (forall n :: 0 <= n < |born| ==>
          born[n] !in a0 && born[n] in arena && arena[born[n]].body.Bot? && arena[born[n]].body.bot.brain == queue[n].brain)
  }

  /** A successful `Hatch` of the front entry, as its contract describes it,
      moves the birth loop on by one entry. */
  lemma HatchingNext(objects: seq<nat>, arena: map<nat, Entity>, bornQueue: seq<Birth>, counter: nat,
                     objects': seq<nat>, arena': map<nat, Entity>, bornQueue': seq<Birth>, counter': nat, id: nat,
                     objects0: seq<nat>, a0: map<nat, Entity>, c0: nat, queue: seq<Birth>, born: seq<nat>)
    requires Hatching(objects, arena, bornQueue, counter, objects0, a0, c0, queue, born) && |bornQueue| > 0
    requires objects' == objects + [id] && bornQueue' == bornQueue[1..]
    requires id !in arena && arena'.Keys == arena.Keys + {id}
    requires forall j :: j in arena ==> arena'[j] == arena[j]
    requires counter <= counter' && counter <= id
    requires arena'[id].body.Bot? && arena'[id].body.bot.brain == bornQueue[0].brain
    ensures Hatching(objects', arena', bornQueue', counter', objects0, a0, c0, queue, born + [id])
  {
    var born' := born + [id];
    assert bornQueue[0] == queue[|born|];
    assert queue[|born'|..] == queue[|born|..][1..];
    forall n | 0 <= n < |born'|
      ensures born'[n] !in a0 && born'[n] in arena' && arena'[born'[n]].body.Bot?
        && arena'[born'[n]].body.bot.brain == queue[n].brain
    {
      if n < |born| {
        assert born'[n] == born[n];
      }
    }
  }

  /** The food a dead bot leaves where it stood (`onDestroy`). */
  function DepositOf(e: Entity): Entity
    requires e.body.Bot?
  {
    Entity(e.pos, 0, None, Food(Bots.Deposit(e.body.bot)))
  }

  /** A dead bot's deposit: mature, full, not growing, decaying by 5. */
  predicate IsDeposit(e: Entity)
  {
    && e.body.Food? && e.radius == 0
    && e.body.food.isMature && e.body.food.calories == e.body.food.maxCalories
    && e.body.food.growthRate == 0.0 && e.body.food.decayRate == 5.0
  }

  /** The deposit appended by `onDestroy` is not what the death removes. */
  lemma UnlistAfterDeposit(s: seq<nat>, deposit: seq<nat>, k: nat)
    requires k !in deposit
    ensures Without(s + deposit, {k}) == Without(s, {k}) + deposit
  {
    WithoutConcat(s, deposit, {k});
    WithoutNothing(deposit, {k});
  }

  /** `onDestroy` of the front entry of the death queue, then its removal
      from the list, the queue and the model, as their contracts describe
      them, make up one `Bury`. */
  lemma Buried(objects0: seq<nat>, arena0: map<nat, Entity>, counter0: nat, deathNote0: seq<nat>, deposit: seq<nat>,
               objects1: seq<nat>, arena1: map<nat, Entity>,
               objects2: seq<nat>, arena2: map<nat, Entity>, deathNote2: seq<nat>)
    requires |deathNote0| > 0 && deathNote0[0] in arena0
    requires objects1 == objects0 + deposit && |deposit| <= 1
    requires forall j :: j in arena0 ==> j in arena1 && arena1[j] == arena0[j]
    requires forall j :: j in arena1 <==> j in arena0 || j in deposit
    requires !arena0[deathNote0[0]].body.Bot? ==> deposit == []
    requires |deposit| == 1 ==>
               deposit[0] !in arena0 &&
               arena1[deposit[0]] == DepositOf(arena0[deathNote0[0]]).(chunk := arena1[deposit[0]].chunk)
    requires forall j :: j in deposit ==> counter0 <= j
    requires objects2 == Without(objects1, {deathNote0[0]}) && deathNote2 == deathNote0[1..]
    requires arena2 == if deathNote0[0] in deathNote2 then arena1 else arena1 - {deathNote0[0]}
    ensures objects2 == Without(objects0, {deathNote0[0]}) + deposit
    ensures forall j :: j in arena2 <==>
      (j in arena0 && (j != deathNote0[0] || deathNote0[0] in deathNote2)) || j in deposit
    ensures forall j :: j in arena0 && j in arena2 ==> arena2[j] == arena0[j]
    ensures forall j :: j in deposit ==> counter0 <= j && j !in arena0 && j in arena2 && IsDeposit(arena2[j])
  {
    var k := deathNote0[0];
    if |deposit| == 1 {
      DepositIsDeposit(arena0[k], arena1[deposit[0]].chunk);
      assert deposit == [deposit[0]];
    }
    UnlistAfterDeposit(objects0, deposit, k);
  }

  lemma DepositIsDeposit(e: Entity, c: Option<ChunkRef>)
    requires e.body.Bot?
    ensures IsDeposit(DepositOf(e).(chunk := c))
  {
  }

  /** The points `addSmartBot` lets a brain spend: `-1` means the settings'
      amount. */
  function Budget(s: EvolutionPoints.Settings, evolutionPoints: int): int
  {
    if evolutionPoints == -1 then s.amountOfPoints else evolutionPoints
  }

  /** The object with its bot state replaced. */
  function WithBot(e: Entity, b: Bots.BotState): Entity { e.(body := Bot(b)) }

  /** A flat food cost (`food.decrease(amount)`). */
  function Charged(b: Bots.BotState, amount: real): Bots.BotState
  {
    b.(food := b.food.Decrease(amount))
  }

  /** Everything of a bot but its health and food is the same. */
  predicate SameMind(b: Bots.BotState, b': Bots.BotState)
  {
    b' == b.(health := b'.health, food := b'.food)
  }

  /** What the actions of one bot keep of every object: the IDs, each
      object's kind and radius, and each bot's state apart from its health
      and food. */
  ghost predicate Keeps(a: map<nat, Entity>, a': map<nat, Entity>)
  {
    && a'.Keys == a.Keys
    && (forall j :: j in a ==> Type(a'[j]) == Type(a[j]) && a'[j].radius == a[j].radius)
    && (forall j :: j in a && a[j].body.Bot? ==> SameMind(a[j].body.bot, a'[j].body.bot))
  }

  lemma KeepsTransitive(a: map<nat, Entity>, a': map<nat, Entity>, a'': map<nat, Entity>)
    requires Keeps(a, a') && Keeps(a', a'')
    ensures Keeps(a, a'')
  {
    forall j | j in a && a[j].body.Bot?
      ensures SameMind(a[j].body.bot, a''[j].body.bot)
    {
      assert Type(a'[j]) == BotObject;
    }
  }

  /** Every bot's health and food lie within their bounds. */
  ghost predicate AllHealthy(a: map<nat, Entity>)
  {
    forall j :: j in a && a[j].body.Bot? ==> Bots.Healthy(a[j].body.bot)
  }

  /** The target an action affects: the chosen object, if it is within the
      reach of the two radii. */
  function Hit(c: Searches.Choice, a: map<nat, Entity>, radius: int, h: Helpers): (t: Option<nat>)
    ensures t.Some? ==> c.best == t && t.value in a
  {
    if c.best.Some? && c.best.value in a && Searches.InReach(c.distance, radius, GetRadius(a[c.best.value], h))
    then c.best else None
  }

  /** A choice measured from `pos`: `minDistance` is the chosen object's
      squared distance from `pos`. */
  ghost predicate Measured(c: Searches.Choice, a: map<nat, Entity>, pos: Vec2)
  {
    c.best.Some? ==> c.best.value in a && c.distance == pos.SqrDistanceTo(a[c.best.value].pos)
  }

  /** The bodies of a bot at `pos` with radius `radius` and of `e` touch:
      their centres are at most the sum of the radii apart. */
  ghost predicate Touches(pos: Vec2, radius: int, e: Entity, h: Helpers)
  {
    pos.SqrDistanceTo(e.pos) <= ((radius + GetRadius(e, h)) * (radius + GetRadius(e, h))) as real
  }

  /** Both modes of the corrected search hand a measured choice to the reach
      test, and on a measured choice the action affects the chosen object
      exactly when its body touches the bot's. */
  lemma HitTouches(c: Searches.Choice, a: map<nat, Entity>, pos: Vec2, radius: int, h: Helpers,
                   sets: seq<set<nat>>, kind: ObjectType, self: nat, target: nat, limit: real)
    ensures Measured(Searches.IDChoice(sets, a, kind, target, pos, limit), a, pos)
    ensures Searches.NearestBelow(c, Searches.Wanted(Searches.Union(sets), a, kind, self), a, pos, limit) ==>
      Measured(c, a, pos)
    ensures Measured(c, a, pos) ==>
      && (Hit(c, a, radius, h).Some? ==> Hit(c, a, radius, h) == c.best && Touches(pos, radius, a[c.best.value], h))
      && (c.best.Some? && Touches(pos, radius, a[c.best.value], h) ==> Hit(c, a, radius, h) == c.best)
  {
  }

  /** `actionAttack` after the search: the 0.1 penalty, then, on a hit,
      `rawAttack`: the target's health drops by the attacker's damage, then
      the attacker pays 0.4 food. A bot can target itself by ID. */
  function Attacking(a: map<nat, Entity>, k: nat, hit: Option<nat>): map<nat, Entity>
    requires k in a && a[k].body.Bot?
    requires hit.Some? ==> hit.value in a && a[hit.value].body.Bot?
  {
    var a1 := a[k := WithBot(a[k], Charged(a[k].body.bot, 0.1))];
    match hit
    case None => a1
    case Some(t) =>
      var a2 := a1[t := WithBot(a1[t], Bots.Attacked(a1[t].body.bot, a[k].body.bot.damage))];
      a2[k := WithBot(a2[k], Bots.AttackPaid(a2[k].body.bot))]
  }

  /** An attack changes the attacker's food and the target's health and
      nothing else: no object appears or goes, nothing moves, and every bot
      stays healthy. */
  lemma AttackingEffects(a: map<nat, Entity>, k: nat, hit: Option<nat>)
    requires k in a && a[k].body.Bot?
    requires hit.Some? ==> hit.value in a && a[hit.value].body.Bot?
    ensures var a' := Attacking(a, k, hit);
      && Keeps(a, a')
      && (forall j :: j in a ==> a'[j].pos == a[j].pos && a'[j].chunk == a[j].chunk)
      && (forall j :: j in a && j != k && Some(j) != hit ==> a'[j] == a[j])
      && (hit.None? ==> a'[k].body.bot == Charged(a[k].body.bot, 0.1))
      && (hit.Some? && hit.value != k ==>
            && a'[k].body.bot == Bots.AttackPaid(Charged(a[k].body.bot, 0.1))
            && a'[hit.value].body.bot == Bots.Attacked(a[hit.value].body.bot, a[k].body.bot.damage))
      && (AllHealthy(a) ==> AllHealthy(a'))
  {
    if AllHealthy(a) {
      AttackingKeepsHealthy(a, k, hit);
    }
  }

  lemma AttackingKeepsHealthy(a: map<nat, Entity>, k: nat, hit: Option<nat>)
    requires k in a && a[k].body.Bot? && AllHealthy(a)
    requires hit.Some? ==> hit.value in a && a[hit.value].body.Bot?
    ensures AllHealthy(Attacking(a, k, hit))
  {
    var b := a[k].body.bot;
    var a' := Attacking(a, k, hit);
    {
      forall j | j in a' && a'[j].body.Bot?
        ensures Bots.Healthy(a'[j].body.bot)
      {
        if j == k || Some(j) == hit {
          Bots.EffectsStayInRange(b, 0.0, 0.0);
          ChargeStaysInRange(b, 0.1);
          if hit.Some? {
            var t := hit.value;
            var bt := a[t].body.bot;
            Bots.EffectsStayInRange(bt, b.damage, 0.0);
            Bots.EffectsStayInRange(Charged(b, 0.1), b.damage, 0.0);
            ChargeStaysInRange(b, 0.1);
            if t == k {
              Bots.EffectsStayInRange(Bots.Attacked(Charged(b, 0.1), b.damage), 0.0, 0.0);
            }
          }
        }
      }
    }
  }

  lemma ChargeStaysInRange(b: Bots.BotState, amount: real)
    requires Bots.Healthy(b)
    ensures Bots.Healthy(Charged(b, amount))
  {
    if b.food.WellFormed() {
      RangeValues.StepsStayInRange(b.food, amount);
    }
  }

  /** `actionEat` after the search: the 0.05 penalty, then, on a hit,
      `rawEat`: 0.1 food for chewing, a bite of `BiteSize` asked of the food,
      and what it gave added to the bot's food; the food keeps what is left. */
  function Eating(a: map<nat, Entity>, k: nat, hit: Option<nat>, h: Helpers): map<nat, Entity>
    requires k in a && a[k].body.Bot?
    requires hit.Some? ==> hit.value in a && a[hit.value].body.Food?
  {
    var b := Charged(a[k].body.bot, 0.05);
    match hit
    case None => a[k := WithBot(a[k], b)]
    case Some(t) =>
      var f := a[t].body.food;
      var bite := h.decreaseCalories(f.calories, Bots.BiteSize(b));
      a[k := WithBot(a[k], Bots.Fed(b, bite.0))][t := a[t].(body := Food(f.(calories := bite.1)))]
  }

  /** A meal changes the bot's food and the eaten food's calories and
      nothing else, and every bot stays healthy. */
  lemma EatingEffects(a: map<nat, Entity>, k: nat, hit: Option<nat>, h: Helpers)
    requires k in a && a[k].body.Bot?
    requires hit.Some? ==> hit.value in a && a[hit.value].body.Food?
    ensures var a' := Eating(a, k, hit, h);
      && Keeps(a, a')
      && (forall j :: j in a ==> a'[j].pos == a[j].pos && a'[j].chunk == a[j].chunk)
      && (forall j :: j in a && j != k && Some(j) != hit ==> a'[j] == a[j])
      && (hit.None? ==> a'[k].body.bot == Charged(a[k].body.bot, 0.05))
      && (hit.Some? ==>
            var f := a[hit.value].body.food;
            var bite := h.decreaseCalories(f.calories, Bots.BiteSize(a[k].body.bot));
            && a'[k].body.bot == Bots.Fed(Charged(a[k].body.bot, 0.05), bite.0)
            && a'[hit.value].body.food == f.(calories := bite.1))
      && (AllHealthy(a) ==> AllHealthy(a'))
  {
    if AllHealthy(a) {
      EatingKeepsHealthy(a, k, hit, h);
    }
  }

  lemma EatingKeepsHealthy(a: map<nat, Entity>, k: nat, hit: Option<nat>, h: Helpers)
    requires k in a && a[k].body.Bot? && AllHealthy(a)
    requires hit.Some? ==> hit.value in a && a[hit.value].body.Food?
    ensures AllHealthy(Eating(a, k, hit, h))
  {
    var b := a[k].body.bot;
    {
      ChargeStaysInRange(b, 0.05);
      if hit.Some? {
        var f := a[hit.value].body.food;
        var bite := h.decreaseCalories(f.calories, Bots.BiteSize(Charged(b, 0.05)));
        Bots.EffectsStayInRange(Charged(b, 0.05), 0.0, bite.0);
      }
    }
  }

  /** The allocation `addSmartBot` accepts: each count raised to at least 0. */
  function Clamped(r: Protocol.InitProtocolResponce): (c: Protocol.InitProtocolResponce)
    ensures c.healthPoints >= 0 && c.foodPoints >= 0 && c.visionPoints >= 0
    ensures c.speedPoints >= 0 && c.attackPoints >= 0
    ensures c.r == r.r && c.g == r.g && c.b == r.b
  {
    r.(healthPoints := IntMax(0, r.healthPoints), foodPoints := IntMax(0, r.foodPoints),
       visionPoints := IntMax(0, r.visionPoints), speedPoints := IntMax(0, r.speedPoints),
       attackPoints := IntMax(0, r.attackPoints))
  }

  /** No allocation count is negative. */
  predicate NonNegative(c: Protocol.InitProtocolResponce)
  {
    c.healthPoints >= 0 && c.foodPoints >= 0 && c.visionPoints >= 0 && c.speedPoints >= 0 && c.attackPoints >= 0
  }

  /** Every count of `c` is at least the one of `r`. */
  predicate AtLeast(c: Protocol.InitProtocolResponce, r: Protocol.InitProtocolResponce)
  {
    && c.healthPoints >= r.healthPoints && c.foodPoints >= r.foodPoints && c.visionPoints >= r.visionPoints
    && c.speedPoints >= r.speedPoints && c.attackPoints >= r.attackPoints
  }

  /** The clamped allocation is the least non-negative allocation at least
      the brain's: it is one itself, every other one is at least it, so it
      keeps an allocation that is already non-negative and clamping twice
      changes nothing. */
  lemma ClampedLeast(r: Protocol.InitProtocolResponce, d: Protocol.InitProtocolResponce)
    ensures NonNegative(Clamped(r)) && AtLeast(Clamped(r), r)
    ensures NonNegative(d) && AtLeast(d, r) ==> AtLeast(d, Clamped(r))
    ensures NonNegative(r) ==> Clamped(r) == r
    ensures Clamped(Clamped(r)) == Clamped(r)
  {
  }

  function IntMax(a: int, b: int): int { if a >= b then a else b }
  function IntMin(a: int, b: int): int { if a <= b then a else b }

  /** The points an allocation spends. */
  function Spent(c: Protocol.InitProtocolResponce): int
  {
    c.healthPoints + c.foodPoints + c.visionPoints + c.speedPoints + c.attackPoints
  }

  /** The bot `addSmartBot` builds from an accepted allocation: maximum
      health and food converted from points, starting at those maxima times
      the clamped factors; vision converted and capped; speed and damage
      converted; the brain's own decision record; an empty perception
      record. */
  function NewBot(s: EvolutionPoints.Settings, c: Protocol.InitProtocolResponce, healthKoef: real,
                  foodKoef: real, maxSeeDistance: int, brain: nat, decision: Protocol.Responce): Bots.BotState
  {
    var maxHealth := s.PointsToHealth(c.healthPoints);
    var maxFood := s.PointsToFood(c.foodPoints);
    Bots.BotState(
      RangeValues.Range(maxHealth * RangeValues.Clamp(healthKoef, 0.0, 1.0), 0.0, maxHealth),
      RangeValues.Range(maxFood * RangeValues.Clamp(foodKoef, 0.0, 1.0), 0.0, maxFood),
      IntMin(s.PointsToVisionDistance(c.visionPoints), maxSeeDistance),
      s.PointsToSpeed(c.speedPoints), s.PointsToDamage(c.attackPoints),
      brain, decision, Protocol.EmptyProtocol)
  }

  /** With non-negative rates and a clamped allocation, a new bot starts
      healthy, with health and food between 0 and their maxima, and sees no
      farther than the cap. */
  lemma NewBotIsHealthy(s: EvolutionPoints.Settings, r: Protocol.InitProtocolResponce, healthKoef: real,
                        foodKoef: real, maxSeeDistance: int, brain: nat, decision: Protocol.Responce)
    requires s.NonNegativeRates()
    ensures var b := NewBot(s, Clamped(r), healthKoef, foodKoef, maxSeeDistance, brain, decision);
      && b.health.WellFormed() && b.food.WellFormed() && Bots.Healthy(b)
      && b.health.maxValue == s.PointsToHealth(Clamped(r).healthPoints)
      && b.food.maxValue == s.PointsToFood(Clamped(r).foodPoints)
      && b.seeDistance <= maxSeeDistance
      && b.protocol == Protocol.EmptyProtocol
  {
    var c := Clamped(r);
    var b := NewBot(s, c, healthKoef, foodKoef, maxSeeDistance, brain, decision);
    NonNegProduct(c.healthPoints as real, s.healthForPoint);
    NonNegProduct(c.foodPoints as real, s.foodForPoint);
    FractionOf(b.health.maxValue, RangeValues.Clamp(healthKoef, 0.0, 1.0), b.health.value);
    FractionOf(b.food.maxValue, RangeValues.Clamp(foodKoef, 0.0, 1.0), b.food.value);
  }

  lemma FractionOf(m: real, k: real, v: real)
    requires 0.0 <= m && 0.0 <= k <= 1.0 && v == m * k
    ensures 0.0 <= v <= m
  {
  }

  lemma NonNegProduct(a: real, b: real)
    requires 0.0 <= a && 0.0 <= b
    ensures 0.0 <= a * b
  {
  }

  /** The object sets of the chunks in a search queue, in queue order. */
  function Contents(cs: seq<Chunk>): (r: seq<set<nat>>)
    reads set c | c in cs
    ensures |r| == |cs| && forall i :: 0 <= i < |cs| ==> r[i] == cs[i].objects
  {
    seq(|cs|, i reads cs requires 0 <= i < |cs| => cs[i].objects)
  }

  /** The start of `update` for a bot: the healing step, its shadow
      published with the healed vitals, the vision radius and the position,
      then the hunger step. */
  function Refreshed(b: Bots.BotState, id: nat, see: int, pos: Vec2): (b': Bots.BotState)
    ensures SameMind(b, b'.(protocol := b.protocol))
    ensures b'.protocol == b.protocol.(body := Some(Bots.Shadow(id, Bots.Recovered(b), see, pos)))
  {
    var healed := Bots.Recovered(b);
    Bots.Hungry(healed).(protocol := b.protocol.(body := Some(Bots.Shadow(id, healed, see, pos))))
  }

  /** What `packProtocol` leaves in the perception record for the bot `self`
      at `pos`, looking at the objects `s`: every food, tree and bot strictly
      inside the vision radius (squared: `sqrSeeDistance`) but itself, the
      nearest of each kind with its distance, and no enemy. */
  ghost predicate Perception(p: Protocol.UpdateProtocol, s: set<nat>, a: map<nat, Entity>, self: nat, pos: Vec2,
                             sqrSeeDistance: int, sqrt: real -> real)
  {
    && p.visibleObjects == Searches.Perceived(s, a, self, pos, sqrSeeDistance, FoodObject)
      + Searches.Perceived(s, a, self, pos, sqrSeeDistance, TreeObject)
      + Searches.Perceived(s, a, self, pos, sqrSeeDistance, BotObject)
    && Searches.Reports(p.nearestFood, p.distanceToNearestFood,
                        Searches.Perceived(s, a, self, pos, sqrSeeDistance, FoodObject), a, pos, sqrt)
    && Searches.Reports(p.nearestTree, p.distanceToNearestTree,
                        Searches.Perceived(s, a, self, pos, sqrSeeDistance, TreeObject), a, pos, sqrt)
    && Searches.Reports(p.nearestBot, p.distanceToNearestBot,
                        Searches.Perceived(s, a, self, pos, sqrSeeDistance, BotObject), a, pos, sqrt)
    && p.nearestEnemy == None && p.distanceToNearestEnemy == -1.0
  }

  /** Fruit `i` of `spawnFood` for the tree `t` at `treePos`: on the ring at
      the tree's radius plus 15, with the tree's food settings. The base
      radius is not read for food (`getRadius` is overridden). */
  function FruitEntity(t: Trees.TreeState, treePos: Vec2, i: int, h: Helpers): (e: Entity)
    ensures e.body == Food(Trees.Fruit(t)) && e.chunk == None
  {
    Entity(h.fruitPosition(treePos, Trees.TreeRadius(t) + 15, i, t.numberOfFruits), 0, None, Food(Trees.Fruit(t)))
  }

  /** The objects `ids` of the arena `a` are the fruit 0, 1, ... of the tree
      `t` at `treePos`, in that order, none of them in the arena `before`. */
  ghost predicate Fruits(a: map<nat, Entity>, before: map<nat, Entity>, ids: seq<nat>, t: Trees.TreeState, treePos: Vec2, h: Helpers)
  {
    forall n :: 0 <= n < |ids| ==>
      ids[n] !in before && ids[n] in a && a[ids[n]] == FruitEntity(t, treePos, n, h).(chunk := a[ids[n]].chunk)
  }

  /** The loop of `spawnFood` after the fruit `added`: the list `objects0`
      followed by them, the objects of `a0` untouched, and the fruit as
      `Fruits` says. */
  ghost predicate Spawning(objects: seq<nat>, arena: map<nat, Entity>, objects0: seq<nat>, a0: map<nat, Entity>,
                           added: seq<nat>, t: Trees.TreeState, treePos: Vec2, h: Helpers)
  {
    && objects == objects0 + added
    && (forall j :: j in a0 ==> j in arena && arena[j] == a0[j])
    && Fruits(arena, a0, added, t, treePos, h)
  }

  /** Adding the next fruit, under a fresh ID, extends the run of fruit. */
  lemma FruitsGrow(a: map<nat, Entity>, before: map<nat, Entity>, ids: seq<nat>, t: Trees.TreeState, treePos: Vec2, h: Helpers, id: nat, c: ChunkRef)
    requires Fruits(a, before, ids, t, treePos, h) && id !in a && id !in before
    ensures Fruits(a[id := Adopted(FruitEntity(t, treePos, |ids|, h), id, c)], before, ids + [id], t, treePos, h)
  {
    var a' := a[id := Adopted(FruitEntity(t, treePos, |ids|, h), id, c)];
    forall n | 0 <= n < |ids| + 1
      ensures (ids + [id])[n] !in before && (ids + [id])[n] in a'
      ensures a'[(ids + [id])[n]] == FruitEntity(t, treePos, n, h).(chunk := a'[(ids + [id])[n]].chunk)
    {
      if n < |ids| {
        assert (ids + [id])[n] == ids[n] && ids[n] in a;
      }
    }
  }

  class Simulation {
    var objects: seq<nat>
    var arena: map<nat, Entity>
    var deathNote: seq<nat>
    var bornQueue: seq<Birth>
    const idManger: IDs.IDManager
    const chunkManager: ChunkManager
    const maxSeeDistance: int
    const settings: EvolutionPoints.Settings
    const helpers: Helpers
    const brains: Protocol.Brains
    const botRadius: int

    /** Inside `[0, mapWidth] × [0, mapHeight]`, edges included. */
    predicate OnMap(p: Vec2)
    {
      0.0 <= p.x <= chunkManager.mapWidth && 0.0 <= p.y <= chunkManager.mapHeight
    }

    /** The chunk a back-pointer names. */
    function CellAt(r: ChunkRef): (c: Chunk)
      requires chunkManager.Valid() && chunkManager.InGrid(r.x, r.y)
      ensures c in chunkManager.Repr && c.Ref() == r
    {
      chunkManager.GetChunk(r.x, r.y)
    }

    /** Every live object is listed once, and the death queue names live
        objects (an object stays alive while the queue still holds it). */
    ghost predicate Listed()
      reads this`objects, this`arena, this`deathNote
    {
      && (forall k :: k in arena <==> k in objects || k in deathNote)
      && (forall i, j :: 0 <= i < j < |objects| ==> objects[i] != objects[j])
    }

    /** A listed object sits on the map, in the chunk its back-pointer names,
        and that chunk contains its position. */
    ghost predicate Placed(k: nat)
      requires chunkManager.Valid()
      reads this`arena, chunkManager.Repr
    {
      && k in arena
      && arena[k].chunk.Some?
      && chunkManager.InGrid(arena[k].chunk.value.x, arena[k].chunk.value.y)
      && k in CellAt(arena[k].chunk.value).objects
      && CellAt(arena[k].chunk.value).IsPosInsideChunk(arena[k].pos)
      && OnMap(arena[k].pos)
    }

    /** A chunk holds only listed objects, each pointing back at it. */
    ghost predicate Registered()
      reads this`objects, this`arena, chunkManager.Repr
    {
      forall c, k :: c in chunkManager.Repr && k in c.objects ==>
        k in objects && k in arena && arena[k].chunk == Some(c.Ref())
    }

    /** Everything `Valid` asks except that chunks list only objects that
        point back at them. */
    ghost predicate Settled()
      reads this`objects, this`arena, this`deathNote, idManger, chunkManager.Repr
    {
      && chunkManager.Valid()
      && idManger.Valid()
      && HelpersSound(helpers)
      && Listed()
      && (forall k :: k in arena ==> k < idManger.idCounter)
      && (forall k :: k in arena ==> arena[k].chunk.Some? && chunkManager.InGrid(arena[k].chunk.value.x, arena[k].chunk.value.y))
      && (forall k :: k in objects ==> Placed(k))
    }

    ghost predicate Valid()
      reads this`objects, this`arena, this`deathNote, idManger, chunkManager.Repr
    {
      Settled() && Registered()
    }

    /** Chunks list only objects that point back at them, except perhaps
        `k` in `c0`. */
    ghost predicate RegisteredBut(k: nat, c0: Chunk)
      reads this`objects, this`arena, chunkManager.Repr
    {
      forall c, j :: c in chunkManager.Repr && j in c.objects && (c != c0 || j != k) ==>
        j in objects && j in arena && arena[j].chunk == Some(c.Ref())
    }

    /** Half-way through a move: `k` already points at its new chunk, but
        `own`, the chunk it left, still lists it. */
    ghost predicate Straddles(k: nat, own: Chunk)
      reads this`objects, this`arena, this`deathNote, idManger, chunkManager.Repr
    {
      && Settled()
      && k in objects
      && own in chunkManager.Repr
      && arena[k].chunk != Some(own.Ref())
      && RegisteredBut(k, own)
    }

    /** A quarter of the way through a move: `dest` already lists `k`, but
        `k` still points at another chunk. */
    ghost predicate Entered(k: nat, dest: Chunk)
      reads this`objects, this`arena, this`deathNote, idManger, chunkManager.Repr
    {
      && Settled()
      && k in objects
      && dest in chunkManager.Repr
      && arena[k].chunk != Some(dest.Ref())
      && RegisteredBut(k, dest)
    }

    /** A simulation with an empty grid of `numberOfChunksX × numberOfChunksY`
        chunks of `unitsPerChunk · unit` units; the vision cap is that size
        times the settings' factor, truncated. */
    constructor (settings_: EvolutionPoints.Settings, numberOfChunksX: nat, numberOfChunksY: nat,
                 unitsPerChunk: int, unit: int, helpers_: Helpers, brains_: Protocol.Brains, botRadius_: int)
      requires unitsPerChunk * unit > 0 && HelpersSound(helpers_)
      ensures Valid()
      ensures objects == [] && arena == map[] && deathNote == [] && bornQueue == []
      ensures idManger.idCounter == 0
      ensures chunkManager.numberOfChunksX == numberOfChunksX && chunkManager.numberOfChunksY == numberOfChunksY
      ensures chunkManager.chunkSize == (unitsPerChunk * unit) as real
      ensures maxSeeDistance == Trunc(chunkManager.chunkSize * settings_.maxSeeDistanceSizeOfChunk)
    {
      var grid := new ChunkManager(numberOfChunksX, numberOfChunksY, (unitsPerChunk * unit) as real);
      var ids := new IDs.IDManager();
      chunkManager := grid;
      idManger := ids;
      maxSeeDistance := Trunc(grid.chunkSize * settings_.maxSeeDistanceSizeOfChunk);
      settings := settings_;
      helpers := helpers_;
      brains := brains_;
      botRadius := botRadius_;
      objects, arena, deathNote, bornQueue := [], map[], [], [];
    }

    /** A listed object is in exactly one chunk: the one its back-pointer
        names. */
    lemma ExactlyOneChunk(k: nat, c: Chunk)
      requires Valid() && k in objects && c in chunkManager.Repr
      ensures k in c.objects <==> c == CellAt(arena[k].chunk.value)
    {
      assert Placed(k);
      if k in c.objects {
        ReprCell(chunkManager, c);
      }
    }

    /** A live object is listed by its own chunk at most. */
    lemma OnlyCell(k: nat)
      requires Valid() && k in arena
      ensures forall c :: c in chunkManager.Repr && k in c.objects ==> c == CellAt(arena[k].chunk.value)
    {
      forall c | c in chunkManager.Repr && k in c.objects
        ensures c == CellAt(arena[k].chunk.value)
      {
        ExactlyOneChunk(k, c);
      }
    }

    /** `addObject` (for each of the four kinds) and `addObjectToSimulation`:
        a position off the map, or one no chunk is found for, is refused with
        `invalid_argument`; an exhausted ID counter with `overflow_error`;
        otherwise a copy of `e` is put in the chunk containing its position,
        gets the next ID and is appended to the object list. */
    method AddObject(e: Entity) returns (r: Result<nat>)
      requires Valid()
      modifies this, idManger, chunkManager.Repr
      ensures Valid()
      ensures r.Err? <==>
        !OnMap(e.pos) || chunkManager.WhatChunkHere(e.pos) == null || old(idManger.idCounter) == IDs.ULONG_MAX
      ensures r.Err? ==> r.error == (if OnMap(e.pos) && chunkManager.WhatChunkHere(e.pos) != null then OverflowError else InvalidArgument)
      ensures r.Err? ==> objects == old(objects) && arena == old(arena) && idManger.idCounter == old(idManger.idCounter)
      ensures r.Err? ==> forall c :: c in chunkManager.Repr ==> c.objects == old(c.objects)
      ensures r.Ok? ==> var cell := chunkManager.WhatChunkHere(e.pos);
        && r.value == old(idManger.idCounter) && r.value !in old(arena)
        && idManger.idCounter == old(idManger.idCounter) + 1
        && objects == old(objects) + [r.value]
        && arena == old(arena)[r.value := Adopted(e, r.value, cell.Ref())]
        && cell.objects == old(cell.objects) + {r.value}
        && cell.IsPosInsideChunk(e.pos)
        && (forall c :: c in chunkManager.Repr && c != cell ==> c.objects == old(c.objects))
      ensures deathNote == old(deathNote) && bornQueue == old(bornQueue)
    {
      if !OnMap(e.pos) {
        return Err(InvalidArgument);
      }
      var cell := chunkManager.WhatChunkHere(e.pos);
      if cell == null {
        return Err(InvalidArgument);
      }
      var id := idManger.GetAssignValue();
      if id.Err? {
        return Err(id.error);
      }
      var k := id.value;
      WhatChunkHereFinds(chunkManager, e.pos);
      Adopt(e, k, cell);
      r := Ok(k);
    }

    /** The second half of `addObject`: the fresh ID `k` is listed in
        `cell`, which contains the position, and appended to the objects. */
    method Adopt(e: Entity, k: nat, cell: Chunk)
      requires Valid() && k !in arena && k < idManger.idCounter
      requires cell in chunkManager.Repr && cell.IsPosInsideChunk(e.pos) && OnMap(e.pos)
      modifies this`arena, this`objects, cell
      ensures Valid()
      ensures objects == old(objects) + [k] && arena == old(arena)[k := Adopted(e, k, cell.Ref())]
      ensures cell.objects == old(cell.objects) + {k}
    {
      assert k !in objects;
      SnocDistinct(objects, k);
      var back := cell.AddObject(k);
      arena := arena[k := Adopted(e, k, back)];
      objects := objects + [k];
      forall j | j in objects
        ensures Placed(j)
      {
        if j != k {
          assert old(Placed(j));
        } else {
          ReprCell(chunkManager, cell);
        }
      }
      forall c, j | c in chunkManager.Repr && j in c.objects
        ensures j in objects && j in arena && arena[j].chunk == Some(c.Ref())
      {
        if c != cell || j != k {
          assert j in old(c.objects);
        }
      }
    }

    /** Replaces the objects' states where nothing moves and no back-pointer
        changes. */
    method Store(a: map<nat, Entity>)
      requires Valid() && a.Keys == arena.Keys
      requires forall j :: j in arena ==> a[j].pos == arena[j].pos && a[j].chunk == arena[j].chunk
      modifies this`arena
      ensures Valid() && arena == a
    {
      arena := a;
      forall j | j in objects
        ensures Placed(j)
      {
        assert old(Placed(j));
      }
    }

    /** The chunk an object at `p` belongs in after a move out of the chunk
        `from`: that chunk if it still contains `p`, otherwise the one the
        lookup finds. Either way it contains `p`. */
    function Destination(from: ChunkRef, p: Vec2): (c: Chunk)
      requires chunkManager.Valid() && chunkManager.InGrid(from.x, from.y) && OnMap(p)
      ensures c in chunkManager.Repr && c.IsPosInsideChunk(p)
      ensures CellAt(from).IsPosInsideChunk(p) ==> c == CellAt(from)
    {
      if CellAt(from).IsPosInsideChunk(p) then CellAt(from)
      else
        WhatChunkHereFinds(chunkManager, p);
        chunkManager.WhatChunkHere(p)
    }

    /** The position update of `actionMove`: the object is put at `p` with
        its new state `body`, and only if its chunk does not contain `p` is
        it moved to the chunk that does; no other object and no other chunk
        membership changes. */
    method Relocate(k: nat, p: Vec2, body: Body)
      requires Valid() && k in objects && OnMap(p)
      modifies this`arena, chunkManager.Repr
      ensures Valid()
      ensures var dest := old(Destination(arena[k].chunk.value, p));
        && arena == old(arena)[k := old(arena)[k].(pos := p, chunk := Some(dest.Ref()), body := body)]
        && k in dest.objects
      ensures forall c :: c in chunkManager.Repr ==> c.objects - {k} == old(c.objects) - {k}
      ensures objects == old(objects) && deathNote == old(deathNote) && bornQueue == old(bornQueue)
    {
      assert Placed(k);
      if CellAt(arena[k].chunk.value).IsPosInsideChunk(p) {
        MoveWithin(k, p, body);
      } else {
        MoveAcross(k, p, body);
      }
    }

    method MoveWithin(k: nat, p: Vec2, body: Body)
      requires Valid() && k in objects && OnMap(p) && CellAt(arena[k].chunk.value).IsPosInsideChunk(p)
      modifies this`arena
      ensures Valid()
      ensures arena == old(arena)[k := old(arena)[k].(pos := p, body := body)]
    {
      assert Placed(k);
      arena := arena[k := arena[k].(pos := p, body := body)];
      forall j | j in objects
        ensures Placed(j)
      {
        if j != k {
          assert old(Placed(j));
        }
      }
      assert Listed();
      assert Registered();
    }

    /** The move across a chunk border, as `moveToChunk` does it: the object
        joins the chunk containing `p` and points at it, then leaves its own. */
    method MoveAcross(k: nat, p: Vec2, body: Body)
      requires Valid() && k in objects && OnMap(p) && !CellAt(arena[k].chunk.value).IsPosInsideChunk(p)
      modifies this`arena, chunkManager.Repr
      ensures Valid()
      ensures var dest := old(Destination(arena[k].chunk.value, p));
        && arena == old(arena)[k := old(arena)[k].(pos := p, chunk := Some(dest.Ref()), body := body)]
        && k in dest.objects
      ensures forall c :: c in chunkManager.Repr ==> c.objects - {k} == old(c.objects) - {k}
    {
      assert Placed(k);
      var own := CellAt(arena[k].chunk.value);
      WhatChunkHereFinds(chunkManager, p);
      var dest := chunkManager.WhatChunkHere(p);
      Enter(k, dest);
      Repoint(k, p, dest, body);
      Leave(k, own);
    }

    /** First step of a move: `dest`, a chunk other than the object's own,
        lists `k`. */
    method Enter(k: nat, dest: Chunk)
      requires Valid() && k in objects && dest in chunkManager.Repr && Some(dest.Ref()) != arena[k].chunk
      modifies dest`objects
      ensures Entered(k, dest)
      ensures dest.objects == old(dest.objects) + {k}
    {
      var back := dest.AddObject(k);
      forall j | j in objects
        ensures Placed(j)
      {
        assert old(Placed(j));
      }
    }

    /** Second step of a move: `k`, now listed by `dest`, a chunk
        containing `p`, moves to `p` and points at `dest`. */
    method Repoint(k: nat, p: Vec2, dest: Chunk, body: Body)
      requires Entered(k, dest) && k in dest.objects && dest.IsPosInsideChunk(p) && OnMap(p)
      modifies this`arena
      ensures Straddles(k, old(CellAt(arena[k].chunk.value)))
      ensures arena == old(arena)[k := old(arena)[k].(pos := p, chunk := Some(dest.Ref()), body := body)]
    {
      assert Placed(k);
      ghost var own := CellAt(arena[k].chunk.value);
      ReprCell(chunkManager, dest);
      arena := arena[k := arena[k].(pos := p, chunk := Some(dest.Ref()), body := body)];
      assert RegisteredBut(k, own) by {
        forall c, j | c in chunkManager.Repr && j in c.objects && (c != own || j != k)
          ensures j in objects && j in arena && arena[j].chunk == Some(c.Ref())
        {
          if j == k && c != dest {
            RefInjective(c, own);
          }
        }
      }
      assert Settled() by {
        forall j | j in objects
          ensures Placed(j)
        {
          if j != k {
            assert old(Placed(j));
          }
        }
        assert Listed();
      }
    }

    /** Second half of a move: `own` forgets `k`. */
    method Leave(k: nat, own: Chunk)
      requires Straddles(k, own)
      modifies own`objects
      ensures Valid()
      ensures own.objects == old(own.objects) - {k}
    {
      own.RemoveObject(k);
      forall j | j in objects
        ensures Placed(j)
      {
        assert old(Placed(j));
        if j == k {
          RefInjective(CellAt(arena[k].chunk.value), own);
        }
      }
      forall c, j | c in chunkManager.Repr && j in c.objects
        ensures j in objects && j in arena && arena[j].chunk == Some(c.Ref())
      {
        assert j in old(c.objects) && (c != own || j != k);
      }
    }

    /** Two chunks of the grid with the same indexes are the same chunk. */
    lemma RefInjective(c: Chunk, d: Chunk)
      requires chunkManager.Valid() && c in chunkManager.Repr && d in chunkManager.Repr
      ensures c.Ref() == d.Ref() ==> c == d
    {
      ReprCell(chunkManager, c);
      ReprCell(chunkManager, d);
    }

    /** Where `actionMove` puts the bot `k`: `MovedPosition`, clamped to the
        map. */
    function MoveTarget(k: nat, direction: Vec2, speedMultiplier: real): (p: Vec2)
      requires Valid() && k in arena && arena[k].body.Bot?
      reads this, idManger, chunkManager.Repr
      ensures OnMap(p)
    {
      Bots.MovedPosition(arena[k].pos, direction, arena[k].body.bot.speed, speedMultiplier,
                         chunkManager.mapWidth, chunkManager.mapHeight, helpers.sqrt)
    }

    /** In the objects `a`, `k` points at a chunk of the grid. */
    ghost predicate Anchored(a: map<nat, Entity>, k: nat)
    {
      && chunkManager.Valid() && k in a && a[k].chunk.Some?
      && chunkManager.InGrid(a[k].chunk.value.x, a[k].chunk.value.y)
    }

    /** The objects `a` after `actionMove` of `k`: the bot charged
        `MoveCost`, at `MovedPosition` clamped to the map, pointing at the
        chunk containing it; everything else as it was. */
    ghost function MovedIn(a: map<nat, Entity>, k: nat, direction: Vec2, speedMultiplier: real): map<nat, Entity>
      requires Anchored(a, k) && a[k].body.Bot?
    {
      var p := Bots.MovedPosition(a[k].pos, direction, a[k].body.bot.speed, speedMultiplier,
                                  chunkManager.mapWidth, chunkManager.mapHeight, helpers.sqrt);
      var dest := Destination(a[k].chunk.value, p);
      a[k := Entity(p, a[k].radius, Some(dest.Ref()), Bot(Charged(a[k].body.bot, Bots.MoveCost(speedMultiplier))))]
    }

    /** `MovedIn` of the model's own objects. */
    ghost function Moved(k: nat, direction: Vec2, speedMultiplier: real): map<nat, Entity>
      requires Valid() && k in arena && arena[k].body.Bot?
      reads this, idManger, chunkManager.Repr
    {
      MovedIn(arena, k, direction, speedMultiplier)
    }

    /** `actionMove`: the bot pays `MoveCost` in food, steps to
        `MovedPosition` (clamped to the map) and, when that position leaves
        its chunk, moves to the chunk containing it. */
    method ActionMove(k: nat, direction: Vec2, speedMultiplier: real)
      requires Valid() && k in objects && arena[k].body.Bot?
      modifies this`arena, chunkManager.Repr
      ensures Valid()
      ensures arena == old(Moved(k, direction, speedMultiplier))
      ensures k in old(Destination(arena[k].chunk.value, MoveTarget(k, direction, speedMultiplier))).objects
      ensures forall c :: c in chunkManager.Repr ==> c.objects - {k} == old(c.objects) - {k}
      ensures objects == old(objects) && deathNote == old(deathNote) && bornQueue == old(bornQueue)
    {
      var e := arena[k];
      var b := e.body.bot;
      var p := MoveTarget(k, direction, speedMultiplier);
      Relocate(k, p, Bot(Charged(b, Bots.MoveCost(speedMultiplier))));
    }

    /** `actionGoTo`: a move along the offset to the target with multiplier
        distance over speed. When that multiplier is NaN (speed 0 and the
        target is the bot's own position) nothing is done and `NotANumber`
        is reported. */
    method ActionGoTo(k: nat, target: Vec2) returns (r: Outcome)
      requires Valid() && k in objects && arena[k].body.Bot?
      modifies this`arena, chunkManager.Repr
      ensures Valid()
      ensures var m := old(Bots.GoToMultiplier(target.Sub(arena[k].pos), arena[k].body.bot.speed, helpers.sqrt));
        && (r.Fail? <==> m.Err?)
        && (r.Fail? ==> r.error == NotANumber && arena == old(arena))
        && (r.Pass? ==> arena == old(Moved(k, target.Sub(arena[k].pos), m.value)))
      ensures forall c :: c in chunkManager.Repr ==> c.objects - {k} == old(c.objects) - {k}
      ensures objects == old(objects) && deathNote == old(deathNote) && bornQueue == old(bornQueue)
    {
      var b := arena[k].body.bot;
      var delta := target.Sub(arena[k].pos);
      var m := Bots.GoToMultiplier(delta, b.speed, helpers.sqrt);
      if m.Err? {
        return Fail(NotANumber);
      }
      ActionMove(k, delta, m.value);
      r := Pass;
    }

    /** The object sets the search of `actionAttack` and `actionEat` goes
        through for the object `k`: those of its `SearchArea`. */
    ghost function SearchSets(k: nat): seq<set<nat>>
      requires Valid() && k in arena
      reads this, idManger, chunkManager.Repr
    {
      SearchSetsIn(arena, k)
    }

    /** `SearchSets` for `k` among the objects `a`. */
    ghost function SearchSetsIn(a: map<nat, Entity>, k: nat): seq<set<nat>>
      requires Anchored(a, k)
      reads chunkManager.Repr
    {
      var e := a[k];
      Areas.SearchAreaInGrid(chunkManager, CellAt(e.chunk.value), e.pos, GetRadius(e, helpers));
      Contents(Areas.SearchArea(chunkManager, CellAt(e.chunk.value), e.pos, GetRadius(e, helpers)))
    }

    /** What the search for an object of `kind` by `k` returns: with
        `targetID` the sentinel, the nearest wanted object strictly closer
        than ten chunk sizes (squared distances compared); otherwise the
        object with that ID, with its own squared distance. Either way a
        choice is a live object of that kind. */
    ghost predicate Found(choice: Searches.Choice, k: nat, kind: ObjectType, targetID: nat)
      requires Valid() && k in arena
      reads this, idManger, chunkManager.Repr
    {
      FoundIn(arena, choice, k, kind, targetID)
    }

    /** The search sets depend only on where the searching object is and
        on its radius. */
    lemma SearchSetsAt(a: map<nat, Entity>, b: map<nat, Entity>, k: nat)
      requires Anchored(a, k) && Anchored(b, k)
      requires a[k].pos == b[k].pos && a[k].chunk == b[k].chunk && GetRadius(a[k], helpers) == GetRadius(b[k], helpers)
      ensures SearchSetsIn(a, k) == SearchSetsIn(b, k)
    {
    }

    /** `Found` for `k` among the objects `a`. */
    ghost predicate FoundIn(a: map<nat, Entity>, choice: Searches.Choice, k: nat, kind: ObjectType, targetID: nat)
      requires Anchored(a, k)
      reads chunkManager.Repr
    {
      FoundAmong(SearchSetsIn(a, k), a, choice, k, kind, targetID)
    }

    /** `Found` for `k` among the objects `a`, searching the object sets
        `sets`. */
    ghost predicate FoundAmong(sets: seq<set<nat>>, a: map<nat, Entity>, choice: Searches.Choice, k: nat, kind: ObjectType,
                               targetID: nat)
      requires Anchored(a, k)
    {
      var e := a[k];
      var limit := CellAt(e.chunk.value).chunkSize * 10.0;
      && (targetID == Protocol.NearestTarget ==>
            Searches.NearestBelow(choice, Searches.Wanted(Searches.Union(sets), a, kind, k), a, e.pos, limit))
      && (targetID != Protocol.NearestTarget ==> choice == Searches.IDChoice(sets, a, kind, targetID, e.pos, limit))
      && (choice.best.Some? ==> choice.best.value in a && Type(a[choice.best.value]) == kind)
    }

    /** What `Act` of `action` by the bot `k` does to the objects `a0`,
        giving `a1`, with outcome `r` and, for an attack or an eat, the
        `choice` of the search through the object sets `sets`: nothing for no action and a suicide (which only
        queues the bot), `MovedIn` for a move and a go-to, a NaN go-to
        refused, and the search then `Attacking` or `Eating` on its hit. */
    ghost predicate Acted(a0: map<nat, Entity>, a1: map<nat, Entity>, k: nat, action: Protocol.Action,
                          r: Outcome, choice: Searches.Choice, sets: seq<set<nat>>)
      requires Anchored(a0, k) && a0[k].body.Bot?
    {
      var e := a0[k];
      var radius := GetRadius(e, helpers);
      match action
      case NoAction => r == Pass && a1 == a0
      case SuicideAction => r == Pass && a1 == a0
      case MoveAction(direction, speedMultiplier) => r == Pass && a1 == MovedIn(a0, k, direction, speedMultiplier)
      case GoToAction(target) =>
        var m := Bots.GoToMultiplier(target.Sub(e.pos), e.body.bot.speed, helpers.sqrt);
        if m.Err? then r == Fail(NotANumber) && a1 == a0
        else r == Pass && a1 == MovedIn(a0, k, target.Sub(e.pos), m.value)
      case AttackAction(_, targetID) =>
        && r == Pass && FoundAmong(sets, a0, choice, k, BotObject, targetID)
        && a1 == Attacking(a0, k, Hit(choice, a0, radius, helpers))
      case EatAction(targetID) =>
        && r == Pass && FoundAmong(sets, a0, choice, k, FoodObject, targetID)
        && a1 == Eating(a0, k, Hit(choice, a0, radius, helpers), helpers)
    }

    /** The search shared by `actionAttack` and `actionEat`: the queue is the
        bot's own chunk, or the block around it when its radius reaches past
        that chunk; then the nearest-mode or the ID-mode scan. Nothing
        changes; the result is stated on the state the search starts in. */
    method Search(k: nat, kind: ObjectType, targetID: nat) returns (choice: Searches.Choice)
      requires Valid() && k in objects
      ensures old(Found(choice, k, kind, targetID))
    {
      assert Placed(k);
      var e := arena[k];
      var own := CellAt(e.chunk.value);
      var queue := Areas.SearchQueue(chunkManager, own, e.pos, GetRadius(e, helpers));
      Areas.SearchAreaInGrid(chunkManager, own, e.pos, GetRadius(e, helpers));
      var sets := Contents(queue);
      assert sets == SearchSets(k);
      var limit := own.chunkSize * 10.0;
      if targetID == Protocol.NearestTarget {
        choice := Searches.FindNearest(sets, arena, e.pos, kind, k, limit);
      } else {
        var found := Searches.FindByID(sets, arena, kind, targetID);
        choice := Searches.Choice(found, if found.Some? then Searches.SqrDistance(arena, e.pos, targetID) else limit);
      }
    }

    /** `actionAttack`: the search for a bot, the 0.1 penalty, and
        `rawAttack` on the choice if it is within reach. */
    method ActionAttack(k: nat, targetID: nat) returns (choice: Searches.Choice)
      requires Valid() && k in objects && arena[k].body.Bot?
      modifies this`arena
      ensures Valid()
      ensures old(Found(choice, k, BotObject, targetID))
      ensures arena == Attacking(old(arena), k, Hit(choice, old(arena), old(GetRadius(arena[k], helpers)), helpers))
      ensures k in arena && arena[k].body.Bot? && SameMind(old(arena[k].body.bot), arena[k].body.bot)
      ensures objects == old(objects) && deathNote == old(deathNote) && bornQueue == old(bornQueue)
    {
      choice := Search(k, BotObject, targetID);
      var hit := Hit(choice, arena, GetRadius(arena[k], helpers), helpers);
      AttackingEffects(arena, k, hit);
      assert Type(arena[k]) == BotObject;
      Store(Attacking(arena, k, hit));
    }

    /** `actionEat`: the search for a food, the 0.05 penalty, and `rawEat`
        on the choice if it is within reach. */
    method ActionEat(k: nat, targetID: nat) returns (choice: Searches.Choice)
      requires Valid() && k in objects && arena[k].body.Bot?
      modifies this`arena
      ensures Valid()
      ensures old(Found(choice, k, FoodObject, targetID))
      ensures arena == Eating(old(arena), k, Hit(choice, old(arena), old(GetRadius(arena[k], helpers)), helpers), helpers)
      ensures k in arena && arena[k].body.Bot? && SameMind(old(arena[k].body.bot), arena[k].body.bot)
      ensures objects == old(objects) && deathNote == old(deathNote) && bornQueue == old(bornQueue)
    {
      choice := Search(k, FoodObject, targetID);
      var hit := Hit(choice, arena, GetRadius(arena[k], helpers), helpers);
      EatingEffects(arena, k, hit, helpers);
      assert Type(arena[k]) == BotObject;
      Store(Eating(arena, k, hit, helpers));
    }

    /** `parseProtocolResponce` after the parse: the action the brain chose,
        carried out. `choice` is what an attack or an eat found. */
    method Act(k: nat, action: Protocol.Action) returns (r: Outcome, ghost choice: Searches.Choice)
      requires Valid() && k in objects && arena[k].body.Bot?
      modifies this`arena, this`deathNote, chunkManager.Repr
      ensures Valid() && objects == old(objects) && bornQueue == old(bornQueue)
      ensures k in arena && arena[k].body.Bot? && SameMind(old(arena[k].body.bot), arena[k].body.bot)
      ensures deathNote == old(deathNote) + (if action.SuicideAction? then [k] else [])
      ensures r.Fail? <==> (action.GoToAction? &&
        old(Bots.GoToMultiplier(action.targetPosition.Sub(arena[k].pos), arena[k].body.bot.speed, helpers.sqrt)).Err?)
      ensures r.Fail? ==> r.error == NotANumber
      ensures action.NoAction? || action.SuicideAction? || r.Fail? ==> arena == old(arena)
      ensures action.MoveAction? ==> arena == old(Moved(k, action.direction, action.speedMultiplier))
      ensures action.GoToAction? && r.Pass? ==>
        arena == old(Moved(k, action.targetPosition.Sub(arena[k].pos),
                           Bots.GoToMultiplier(action.targetPosition.Sub(arena[k].pos), arena[k].body.bot.speed, helpers.sqrt).value))
      ensures action.AttackAction? ==>
        && old(Found(choice, k, BotObject, action.targetID))
        && arena == Attacking(old(arena), k, Hit(choice, old(arena), old(GetRadius(arena[k], helpers)), helpers))
      ensures action.EatAction? ==>
        && old(Found(choice, k, FoodObject, action.targetID))
        && arena == Eating(old(arena), k, Hit(choice, old(arena), old(GetRadius(arena[k], helpers)), helpers), helpers)
      ensures old(Anchored(arena, k)) && Acted(old(arena), arena, k, action, r, choice, old(SearchSetsIn(arena, k)))
    {
      if action.AttackAction? || action.EatAction? {
        choice := Contact(k, action);
        r := Pass;
      } else {
        r := Motion(k, action);
        choice := Searches.Choice(None, 0.0);
      }
    }

    /** The actions that move the bot or only mark it: nothing, a move, a
        go-to, a suicide (`actionSuicide` is `markForDeletion`). */
    method Motion(k: nat, action: Protocol.Action) returns (r: Outcome)
      requires Valid() && k in objects && arena[k].body.Bot? && !action.AttackAction? && !action.EatAction?
      modifies this`arena, this`deathNote, chunkManager.Repr
      ensures Valid() && objects == old(objects) && bornQueue == old(bornQueue)
      ensures k in arena && arena[k].body.Bot? && SameMind(old(arena[k].body.bot), arena[k].body.bot)
      ensures deathNote == old(deathNote) + (if action.SuicideAction? then [k] else [])
      ensures r.Fail? <==> (action.GoToAction? &&
        old(Bots.GoToMultiplier(action.targetPosition.Sub(arena[k].pos), arena[k].body.bot.speed, helpers.sqrt)).Err?)
      ensures r.Fail? ==> r.error == NotANumber
      ensures action.NoAction? || action.SuicideAction? || r.Fail? ==> arena == old(arena)
      ensures action.MoveAction? ==> arena == old(Moved(k, action.direction, action.speedMultiplier))
      ensures action.GoToAction? && r.Pass? ==>
        arena == old(Moved(k, action.targetPosition.Sub(arena[k].pos),
                           Bots.GoToMultiplier(action.targetPosition.Sub(arena[k].pos), arena[k].body.bot.speed, helpers.sqrt).value))
    {
      r := Pass;
      match action
      case NoAction =>
      case MoveAction(direction, speedMultiplier) =>
        ActionMove(k, direction, speedMultiplier);
      case GoToAction(target) =>
        r := ActionGoTo(k, target);
      case SuicideAction =>
        MarkForDeletion(k);
    }

    /** The actions that search: an attack or an eat. */
    method Contact(k: nat, action: Protocol.Action) returns (ghost choice: Searches.Choice)
      requires Valid() && k in objects && arena[k].body.Bot? && (action.AttackAction? || action.EatAction?)
      modifies this`arena
      ensures Valid()
      ensures k in arena && arena[k].body.Bot? && SameMind(old(arena[k].body.bot), arena[k].body.bot)
      ensures action.AttackAction? ==>
        && old(Found(choice, k, BotObject, action.targetID))
        && arena == Attacking(old(arena), k, Hit(choice, old(arena), old(GetRadius(arena[k], helpers)), helpers))
      ensures action.EatAction? ==>
        && old(Found(choice, k, FoodObject, action.targetID))
        && arena == Eating(old(arena), k, Hit(choice, old(arena), old(GetRadius(arena[k], helpers)), helpers), helpers)
    {
      if action.EatAction? {
        choice := ActionEat(k, action.targetID);
      } else {
        choice := ActionAttack(k, action.targetID);
      }
    }

    /** `getSeeDistance` of the bot `k`: its vision distance times its
        chunk's multiplier, truncated, and at most the simulation's cap. */
    function Sight(k: nat): int
      requires Valid() && k in arena && arena[k].body.Bot?
      reads this, idManger, chunkManager.Repr
    {
      Bots.GetSeeDistance(arena[k].body.bot.seeDistance, CellAt(arena[k].chunk.value).GetSeeDistanceMultiplier(),
                          maxSeeDistance)
    }

    /** The object sets of the chunks `getChunksInRadius` returns for the bot
        `k`: around its position truncated to integers, by `Sight(k)`. */
    ghost function VisionSets(k: nat): seq<set<nat>>
      requires Valid() && k in arena && arena[k].body.Bot?
      reads this, idManger, chunkManager.Repr
    {
      var center := TruncVec(arena[k].pos);
      Areas.RadiusChunksInGrid(chunkManager, center, Sight(k));
      Contents(Areas.Present(Areas.Rect(chunkManager, Areas.RadiusBounds(chunkManager, center, Sight(k)))))
    }

    /** What `Think` makes of the bot `k`: the objects `thought`, in which
        the bot is `Refreshed` and holds the protocol `p` and its brain's
        decision on it, `p` packing the perception of the objects in the
        chunks within its vision; the bot still points at its chunk. */
    ghost predicate Thought(k: nat, thought: map<nat, Entity>, p: Protocol.UpdateProtocol)
      requires Valid() && k in arena && arena[k].body.Bot?
      reads this, idManger, chunkManager.Repr
    {
      var b := arena[k].body.bot;
      && thought == arena[k := WithBot(arena[k], Refreshed(b, k, Sight(k), arena[k].pos)
                                         .(protocol := p, decision := brains.update(b.brain, p, b.decision)))]
      && p.body == Some(Bots.Shadow(k, Bots.Recovered(b), Sight(k), arena[k].pos))
      && Perception(p, Searches.Union(VisionSets(k)), arena, k, arena[k].pos, Sight(k) * Sight(k), helpers.sqrt)
      && Anchored(thought, k) && thought[k].body.Bot?
    }

    /** The part of `BotObject::update` before the action: a bot at 0 health
        marks itself for deletion (and goes on); it heals if it may,
        publishes its shadow, gets hungry, packs its perception of the
        objects in the chunks within its vision and asks its brain for a
        decision. */
    method Think(k: nat) returns (p: Protocol.UpdateProtocol)
      requires Valid() && k in objects && arena[k].body.Bot?
      modifies this`arena, this`deathNote
      ensures unchanged(chunkManager.Repr)
      ensures Valid() && objects == old(objects) && bornQueue == old(bornQueue)
      ensures var b := old(arena[k].body.bot);
        arena == old(arena)[k := WithBot(old(arena[k]), Refreshed(b, k, old(Sight(k)), old(arena[k].pos))
                                          .(protocol := p, decision := brains.update(b.brain, p, b.decision)))]
      ensures p.body == Some(Bots.Shadow(k, Bots.Recovered(old(arena[k].body.bot)), old(Sight(k)), old(arena[k].pos)))
      ensures Perception(p, Searches.Union(old(VisionSets(k))), old(arena), k, old(arena[k].pos),
                         old(Sight(k)) * old(Sight(k)), helpers.sqrt)
      ensures deathNote == old(deathNote) + (if Bots.Dying(old(arena[k].body.bot)) then [k] else [])
    {
      var e := arena[k];
      var b := e.body.bot;
      var see := Sight(k);
      var b1 := Refreshed(b, k, see, e.pos);
      p := Perceive(k, b1.protocol);
      Decide(k, b1.(protocol := p, decision := brains.update(b.brain, p, b.decision)), Bots.Dying(b));
    }

    /** The bot `k` takes its new state `b'` and, when `dying`, joins the
        death queue. */
    method Decide(k: nat, b': Bots.BotState, dying: bool)
      requires Valid() && k in objects && arena[k].body.Bot?
      modifies this`arena, this`deathNote
      ensures Valid() && objects == old(objects) && bornQueue == old(bornQueue)
      ensures arena == old(arena)[k := WithBot(old(arena[k]), b')]
      ensures deathNote == old(deathNote) + (if dying then [k] else [])
    {
      Store(arena[k := WithBot(arena[k], b')]);
      if dying {
        MarkForDeletion(k);
      }
    }

    /** `packProtocol` for the bot `k`: the record `previous` with the
        perception of the objects in the chunks `getChunksInRadius` returns
        for its position (truncated to integers) and `Sight(k)`. */
    method Perceive(k: nat, previous: Protocol.UpdateProtocol) returns (p: Protocol.UpdateProtocol)
      requires Valid() && k in arena && arena[k].body.Bot?
      ensures p.body == previous.body
      ensures Perception(p, Searches.Union(VisionSets(k)), arena, k, arena[k].pos, Sight(k) * Sight(k), helpers.sqrt)
    {
      var e := arena[k];
      var see := Sight(k);
      var chunks := Areas.ChunksInRadius(chunkManager, TruncVec(e.pos), see);
      Areas.RadiusChunksInGrid(chunkManager, TruncVec(e.pos), see);
      var sets := Contents(Areas.Present(chunks));
      assert sets == VisionSets(k);
      p := Searches.PackProtocol(sets, arena, k, e.pos, see * see, helpers.sqrt, previous);
    }

    /** `BotObject::update`: `Think`, then the parsed decision carried out.
        An action the parse refuses ends the update with `invalid_argument`.
        `thought` is the objects after `Think`, `p` the protocol it packed,
        and `choice` what an attack or an eat found. */
    method BotUpdate(k: nat) returns (r: Outcome, ghost thought: map<nat, Entity>, ghost p: Protocol.UpdateProtocol,
                                      ghost choice: Searches.Choice)
      requires Valid() && k in objects && arena[k].body.Bot?
      modifies this`arena, this`deathNote, chunkManager.Repr
      ensures Valid() && objects == old(objects) && bornQueue == old(bornQueue)
      ensures old(Thought(k, thought, p))
      ensures k in arena && arena[k].body.Bot? && SameMind(thought[k].body.bot, arena[k].body.bot)
      ensures var act := Protocol.ParseProtocolResponce(thought[k].body.bot.decision);
        && (act.Err? ==> r == Fail(InvalidArgument) && arena == thought)
        && (act.Ok? ==> Acted(thought, arena, k, act.value, r, choice, old(SearchSetsIn(arena, k))))
        && deathNote == old(deathNote) + (if old(Bots.Dying(arena[k].body.bot)) then [k] else [])
                        + (if act.Ok? && act.value.SuicideAction? then [k] else [])
    {
      assert Anchored(arena, k);
      ghost var sets := SearchSetsIn(arena, k);
      p := Think(k);
      thought := arena;
      SearchSetsAt(old(arena), thought, k);
      r, choice := Respond(k, sets);
    }

    /** The end of `BotObject::update`: `parseProtocolResponce` of the bot's
        decision, refused with `invalid_argument`, or carried out by `Act`. */
    method Respond(k: nat, ghost sets: seq<set<nat>>) returns (r: Outcome, ghost choice: Searches.Choice)
      requires Valid() && k in objects && arena[k].body.Bot? && sets == SearchSetsIn(arena, k)
      modifies this`arena, this`deathNote, chunkManager.Repr
      ensures Valid() && objects == old(objects) && bornQueue == old(bornQueue)
      ensures k in arena && arena[k].body.Bot? && SameMind(old(arena[k].body.bot), arena[k].body.bot)
      ensures old(Anchored(arena, k))
      ensures var act := Protocol.ParseProtocolResponce(old(arena[k].body.bot.decision));
        && (act.Err? ==> r == Fail(InvalidArgument) && arena == old(arena) && deathNote == old(deathNote))
        && (act.Ok? ==> deathNote == old(deathNote) + (if act.value.SuicideAction? then [k] else []))
        && (act.Ok? ==> Acted(old(arena), arena, k, act.value, r, choice, sets))
    {
      choice := Searches.Choice(None, 0.0);
      assert Placed(k);
      var act := Protocol.ParseProtocolResponce(arena[k].body.bot.decision);
      if act.Err? {
        Protocol.ParseFailsOnlyOnSpawn(arena[k].body.bot.decision);
        return Fail(act.error), choice;
      }
      r, choice := Act(k, act.value);
    }

    /** `FoodObject::update`: the food takes its `FoodUpdated` state and,
        when `FoodExpires`, joins the death queue. */
    method FoodUpdate(k: nat)
      requires Valid() && k in objects && arena[k].body.Food?
      modifies this`arena, this`deathNote
      ensures Valid() && objects == old(objects) && bornQueue == old(bornQueue)
      ensures var f := old(arena[k].body.food);
        && arena == old(arena)[k := old(arena[k]).(body := Food(Foods.FoodUpdated(f)))]
        && deathNote == old(deathNote) + (if Foods.FoodExpires(f) then [k] else [])
    {
      var f := arena[k].body.food;
      Store(arena[k := arena[k].(body := Food(Foods.FoodUpdated(f)))]);
      if Foods.FoodExpires(f) {
        MarkForDeletion(k);
      }
    }

    /** `spawnFood` of the tree `k`: one `addObject` per fruit, in order,
        each a `FruitEntity`; a fruit refused by `addObject` ends the spawn
        with that error, the fruit before it already added. */
    method SpawnFood(k: nat) returns (r: Outcome, ghost added: seq<nat>)
      requires Valid() && k in objects && arena[k].body.Tree?
      modifies this, idManger, chunkManager.Repr
      ensures Valid() && deathNote == old(deathNote) && bornQueue == old(bornQueue)
      ensures objects == old(objects) + added
      ensures forall j :: j in old(arena) ==> j in arena && arena[j] == old(arena[j])
      ensures var t := old(arena[k].body.tree);
        && (r.Pass? ==> |added| == IntMax(t.numberOfFruits, 0))
        && (r.Fail? ==> |added| < t.numberOfFruits)
        && Fruits(arena, old(arena), added, t, old(arena[k].pos), helpers)
    {
      var t := arena[k].body.tree;
      var treePos := arena[k].pos;
      var i := 0;
      r := Pass;
      added := [];
      while i < t.numberOfFruits
        invariant Valid() && deathNote == old(deathNote) && bornQueue == old(bornQueue)
        invariant 0 <= i <= IntMax(t.numberOfFruits, 0) && |added| == i
        invariant Spawning(objects, arena, old(objects), old(arena), added, t, treePos, helpers)
      {
        var id := SpawnNext(t, treePos, i, old(objects), old(arena), added);
        if id.Err? {
          return Fail(id.error), added;
        }
        added := added + [id.value];
        i := i + 1;
      }
    }

    /** One turn of the loop of `spawnFood`: the next fruit added. */
    method SpawnNext(t: Trees.TreeState, treePos: Vec2, i: nat, ghost objects0: seq<nat>, ghost a0: map<nat, Entity>,
                     ghost added: seq<nat>) returns (id: Result<nat>)
      requires Valid() && Spawning(objects, arena, objects0, a0, added, t, treePos, helpers) && |added| == i
      modifies this, idManger, chunkManager.Repr
      ensures Valid() && deathNote == old(deathNote) && bornQueue == old(bornQueue)
      ensures id.Err? ==> Spawning(objects, arena, objects0, a0, added, t, treePos, helpers)
      ensures id.Ok? ==> Spawning(objects, arena, objects0, a0, added + [id.value], t, treePos, helpers)
    {
      id := AddObject(FruitEntity(t, treePos, i, helpers));
      if id.Ok? {
        FruitsGrow(old(arena), a0, added, t, treePos, helpers, id.value, arena[id.value].chunk.value);
        assert objects == objects0 + (added + [id.value]);
      }
    }

    /** `TreeObject::update`: with the cooldown used up, `spawnFood` and
        then the reset; otherwise one tick off the cooldown. A failed spawn
        ends the update before the reset. */
    method TreeUpdate(k: nat) returns (r: Outcome, ghost added: seq<nat>)
      requires Valid() && k in objects && arena[k].body.Tree?
      modifies this, idManger, chunkManager.Repr
      ensures Valid() && deathNote == old(deathNote) && bornQueue == old(bornQueue)
      ensures old(objects) <= objects
      ensures forall j :: j in old(arena) && j != k ==> j in arena && arena[j] == old(arena[j])
      ensures var t := old(arena[k].body.tree);
        && (!Trees.Spawns(t) ==> r.Pass? && objects == old(objects) && arena == old(arena)[k := old(arena[k]).(body := Tree(Trees.TreeUpdated(t)))])
        && (r.Pass? ==> arena[k] == old(arena[k]).(body := Tree(Trees.TreeUpdated(t))))
        && (r.Pass? && Trees.Spawns(t) ==> |objects| == |old(objects)| + IntMax(t.numberOfFruits, 0))
      ensures Grown(k, r, arena, objects, old(arena), old(objects), added)
    {
      var t := arena[k].body.tree;
      r, added := Pass, [];
      if Trees.Spawns(t) {
        r, added := SpawnFood(k);
        if r.Fail? {
          return;
        }
      }
      Store(arena[k := arena[k].(body := Tree(Trees.TreeUpdated(t)))]);
    }

    /** What `TreeObject::update` of the tree `k` does to the objects `a0`
        and the list `objects0`, giving `a1` and `objects1`: the fruit
        `added` appended to the list, each as `Fruits` says, and every other
        object kept; without the cooldown used up, nothing is spawned; a
        complete spawn adds every fruit and resets the tree, a failed one
        stops short and leaves the tree as it was. */
    ghost predicate Grown(k: nat, r: Outcome, a1: map<nat, Entity>, objects1: seq<nat>,
                          a0: map<nat, Entity>, objects0: seq<nat>, added: seq<nat>)
      requires k in a0 && a0[k].body.Tree?
    {
      var e := a0[k];
      var t := e.body.tree;
      && objects1 == objects0 + added
      && Fruits(a1, a0, added, t, e.pos, helpers)
      && (!Trees.Spawns(t) ==> r.Pass? && added == [])
      && (r.Pass? && Trees.Spawns(t) ==> |added| == IntMax(t.numberOfFruits, 0))
      && (r.Fail? ==> Trees.Spawns(t) && |added| < t.numberOfFruits && k in a1 && a1[k] == e)
    }

    /** What every kind's update keeps, for the pass over the object list:
        the model stays valid, objects and deaths are only appended, births
        are untouched. */
    twostate predicate Appended()
      reads this
    {
      && old(objects) <= objects && old(deathNote) <= deathNote
      && bornQueue == old(bornQueue)
    }

    /** What `update` of the object `k` does, by its kind, to the objects,
        the list and the death queue, giving `a1`, `objects1` and
        `deathNote1`, with outcome `r`: nothing for a base object; for a
        food, `FoodUpdated` and its expiry queued; for a tree, `Grown`; for
        a bot, `Thought`, then the parsed decision refused or `Acted` on
        the search sets it had, its dying and its suicide queued. */
    ghost predicate Stepped(k: nat, r: Outcome, a1: map<nat, Entity>, objects1: seq<nat>, deathNote1: seq<nat>, w: Trace)
      requires Valid() && k in objects
      reads this, idManger, chunkManager.Repr
    {
      var e := arena[k];
      match e.body
      case Base => r == Pass && a1 == arena && objects1 == objects && deathNote1 == deathNote
      case Food(f) =>
        && r == Pass && objects1 == objects
        && a1 == arena[k := e.(body := Food(Foods.FoodUpdated(f)))]
        && deathNote1 == deathNote + (if Foods.FoodExpires(f) then [k] else [])
      case Tree(t) =>
        && deathNote1 == deathNote
        && (forall j :: j in arena && j != k ==> j in a1 && a1[j] == arena[j])
        && (r.Pass? ==> k in a1 && a1[k] == e.(body := Tree(Trees.TreeUpdated(t))))
        && Grown(k, r, a1, objects1, arena, objects, w.added)
      case Bot(b) =>
        && objects1 == objects
        && Thought(k, w.thought, w.protocol)
        && var act := Protocol.ParseProtocolResponce(w.thought[k].body.bot.decision);
        && (act.Err? ==> r == Fail(InvalidArgument) && a1 == w.thought)
        && (act.Ok? ==> Acted(w.thought, a1, k, act.value, r, w.choice, SearchSetsIn(arena, k)))
        && deathNote1 == deathNote + (if Bots.Dying(b) then [k] else [])
                         + (if act.Ok? && act.value.SuicideAction? then [k] else [])
    }

    method FoodStep(k: nat) returns (r: Outcome, ghost w: Trace)
      requires Valid() && k in objects && arena[k].body.Food?
      modifies this`arena, this`deathNote
      ensures Valid() && Appended()
      ensures var a1, objects1, deathNote1 := arena, objects, deathNote; old(Stepped(k, r, a1, objects1, deathNote1, w))
    {
      FoodUpdate(k);
      r, w := Pass, NoTrace;
    }

    method TreeStep(k: nat) returns (r: Outcome, ghost w: Trace)
      requires Valid() && k in objects && arena[k].body.Tree?
      modifies this, idManger, chunkManager.Repr
      ensures Valid() && Appended()
      ensures var a1, objects1, deathNote1 := arena, objects, deathNote; old(Stepped(k, r, a1, objects1, deathNote1, w))
    {
      ghost var added;
      r, added := TreeUpdate(k);
      w := NoTrace.(added := added);
    }

    method BotStep(k: nat) returns (r: Outcome, ghost w: Trace)
      requires Valid() && k in objects && arena[k].body.Bot?
      modifies this`arena, this`deathNote, chunkManager.Repr
      ensures Valid() && Appended()
      ensures var a1, objects1, deathNote1 := arena, objects, deathNote; old(Stepped(k, r, a1, objects1, deathNote1, w))
    {
      ghost var thought, p, choice;
      r, thought, p, choice := BotUpdate(k);
      w := Trace(thought, p, choice, []);
    }

    /** `update` of one object, by its kind: a base object does nothing. */
    method UpdateObject(k: nat) returns (r: Outcome, ghost w: Trace)
      requires Valid() && k in objects
      modifies this, idManger, chunkManager.Repr
      ensures Valid() && Appended()
      ensures old(arena[k]).body.Base? ==> r.Pass? && arena == old(arena) && objects == old(objects) && deathNote == old(deathNote)
      ensures var a1, objects1, deathNote1 := arena, objects, deathNote; old(Stepped(k, r, a1, objects1, deathNote1, w))
    {
      r, w := Pass, NoTrace;
      match arena[k].body
      case Base =>
      case Food(_) =>
        r, w := FoodStep(k);
      case Tree(_) =>
        r, w := TreeStep(k);
      case Bot(_) =>
        r, w := BotStep(k);
    }

    /** `Simulation::update`: when running, every object of a copy of the
        object list taken at the start is updated once, in list order, so
        objects added during the pass wait for the next one; an update that
        throws ends the pass. Deaths are only queued. */
    method Update(running: bool) returns (r: Outcome, ghost updated: seq<nat>)
      requires Valid()
      modifies this, idManger, chunkManager.Repr
      ensures Valid() && bornQueue == old(bornQueue)
      ensures old(objects) <= objects && old(deathNote) <= deathNote
      ensures !running ==> r.Pass? && arena == old(arena) && objects == old(objects) && deathNote == old(deathNote)
      ensures updated <= old(objects)
      ensures r.Pass? && running ==> updated == old(objects)
    {
      updated := [];
      r := Pass;
      if !running {
        return;
      }
      var snapshot := objects;
      var i := 0;
      while i < |snapshot|
        invariant Valid() && bornQueue == old(bornQueue)
        invariant 0 <= i <= |snapshot| && updated == snapshot[..i]
        invariant snapshot <= objects && old(deathNote) <= deathNote
      {
        r := Advance(snapshot, i);
        updated := updated + [snapshot[i]];
        if r.Fail? {
          break;
        }
        i := i + 1;
      }
    }

    /** `UpdateNext` as the pass needs it: what it keeps. */
    method Advance(snapshot: seq<nat>, i: nat) returns (r: Outcome)
      requires Valid() && i < |snapshot| && snapshot <= objects
      modifies this, idManger, chunkManager.Repr
      ensures Valid() && snapshot <= objects && old(deathNote) <= deathNote && bornQueue == old(bornQueue)
    {
      ghost var w;
      r, w := UpdateNext(snapshot, i);
    }

    /** One step of the pass: the `i`-th object of the snapshot is updated,
        and the snapshot stays at the front of the object list. */
    method UpdateNext(snapshot: seq<nat>, i: nat) returns (r: Outcome, ghost w: Trace)
      requires Valid() && i < |snapshot| && snapshot <= objects
      modifies this, idManger, chunkManager.Repr
      ensures Valid() && snapshot <= objects && old(deathNote) <= deathNote && bornQueue == old(bornQueue)
      ensures old(snapshot[i] in objects)
      ensures var a1, objects1, deathNote1 := arena, objects, deathNote; old(Stepped(snapshot[i], r, a1, objects1, deathNote1, w))
    {
      assert snapshot[i] == objects[i];
      r, w := UpdateObject(snapshot[i]);
    }

    /** `onDestroy` of the object `k`: a bot leaves its deposit where it
        stands, added with `addObject`, whose refusal ends `afterUpdate`;
        other kinds leave nothing. */
    method OnDestroy(k: nat) returns (r: Outcome, ghost deposit: seq<nat>)
      requires Valid() && k in arena
      modifies this, idManger, chunkManager.Repr
      ensures Valid() && deathNote == old(deathNote) && bornQueue == old(bornQueue)
      ensures objects == old(objects) + deposit && |deposit| <= 1
      ensures forall j :: j in old(arena) ==> j in arena && arena[j] == old(arena[j])
      ensures forall j :: j in arena <==> j in old(arena) || j in deposit
      ensures !old(arena[k]).body.Bot? ==> r.Pass? && deposit == []
      ensures old(arena[k]).body.Bot? ==> (r.Pass? <==> |deposit| == 1)
      ensures old(arena[k]).body.Bot? ==> var at := old(arena[k].pos);
        (r.Fail? <==> !OnMap(at) || chunkManager.WhatChunkHere(at) == null || old(idManger.idCounter) == IDs.ULONG_MAX)
      ensures |deposit| == 1 ==>
        deposit[0] !in old(arena) && arena[deposit[0]] == DepositOf(old(arena[k])).(chunk := arena[deposit[0]].chunk)
      ensures old(idManger.idCounter) <= idManger.idCounter && forall j :: j in deposit ==> old(idManger.idCounter) <= j
    {
      r, deposit := Pass, [];
      var e := arena[k];
      if e.body.Bot? {
        var id := AddObject(DepositOf(e));
        if id.Err? {
          return Fail(id.error), [];
        }
        deposit := [id.value];
      }
    }

    /** The rest of a death: `k` leaves its chunk and the object list, its
        entry leaves the front of the death queue, and the model forgets it
        once no later entry names it. */
    method Unlist(k: nat)
      requires Valid() && |deathNote| > 0 && deathNote[0] == k
      modifies this`objects, this`deathNote, this`arena, chunkManager.Repr
      ensures Valid() && bornQueue == old(bornQueue)
      ensures objects == Without(old(objects), {k}) && deathNote == old(deathNote[1..])
      ensures arena == if k in deathNote then old(arena) else old(arena) - {k}
      ensures forall c :: c in chunkManager.Repr ==> k !in c.objects
    {
      var cell := EraseListed(k);
      Drop(k, cell);
    }

    /** Between the steps of `Unlist`: the model settled, `k` off the list,
        and only `cell` perhaps still listing it. */
    ghost predicate Pending(k: nat, cell: Chunk)
      reads this, idManger, chunkManager.Repr
    {
      Settled() && RegisteredBut(k, cell) && k !in objects
    }

    /** `std::find` then `erase` of `k` in the object list; the death queue
        still names it, so it stays in the model. */
    method EraseListed(k: nat) returns (cell: Chunk)
      requires Valid() && |deathNote| > 0 && deathNote[0] == k
      modifies this`objects
      ensures Pending(k, cell) && cell in chunkManager.Repr
      ensures forall c :: c in chunkManager.Repr && c != cell ==> k !in c.objects
      ensures objects == Without(old(objects), {k})
    {
      cell := CellAt(arena[k].chunk.value);
      OnlyCell(k);
      ghost var listed := objects;
      assert forall c, j :: c in chunkManager.Repr && j in c.objects && (c != cell || j != k) ==> j != k && j in listed by {
        assert Registered();
      }
      objects := EraseUnique(objects, k);
      assert forall j :: j in objects <==> j in listed && j != k;
      assert Settled() by {
        forall j | j in objects
          ensures Placed(j)
        {
          assert old(Placed(j));
        }
        assert Listed();
      }
      assert RegisteredBut(k, cell) by {
        forall c, j | c in chunkManager.Repr && j in c.objects && (c != cell || j != k)
          ensures j in objects
        {
        }
      }
    }

    /** The front entry `k` leaves the death queue, the model forgets `k`
        unless a later entry names it, and `removeObject` takes it off
        `cell`, the last chunk to list it. */
    method Drop(k: nat, cell: Chunk)
      requires Pending(k, cell) && |deathNote| > 0 && deathNote[0] == k && cell in chunkManager.Repr
      requires forall c :: c in chunkManager.Repr && c != cell ==> k !in c.objects
      modifies this`deathNote, this`arena, cell`objects
      ensures Valid() && objects == old(objects)
      ensures deathNote == old(deathNote[1..])
      ensures arena == if k in deathNote then old(arena) else old(arena) - {k}
      ensures forall c :: c in chunkManager.Repr ==> k !in c.objects
    {
      ForgetListed(objects, deathNote, arena, k);
      deathNote := deathNote[1..];
      if k !in deathNote {
        arena := arena - {k};
      }
      cell.RemoveObject(k);
      forall j | j in objects
        ensures Placed(j)
      {
        assert old(Placed(j));
      }
      forall c, j | c in chunkManager.Repr && j in c.objects
        ensures j in objects && j in arena && arena[j].chunk == Some(c.Ref())
      {
        assert j in old(c.objects) && j != k;
      }
    }

    /** One round of the death loop of `afterUpdate` for the object `k` at
        the front of the queue: `OnDestroy`, then `Unlist`. A failed
        `onDestroy` ends `afterUpdate` with `k` still queued and no deposit
        made. An object queued twice leaves two deposits. */
    method Bury() returns (r: Outcome, ghost deposit: seq<nat>)
      requires Valid() && |deathNote| > 0
      modifies this, idManger, chunkManager.Repr
      ensures Valid() && bornQueue == old(bornQueue)
      ensures old(idManger.idCounter) <= idManger.idCounter
      ensures r.Fail? ==> deathNote == old(deathNote) && objects == old(objects) && arena == old(arena)
      ensures r.Pass? ==> deathNote == old(deathNote[1..]) && objects == Without(old(objects), {old(deathNote[0])}) + deposit
      ensures r.Pass? ==> forall j :: j in arena <==>
        (j in old(arena) && (j != old(deathNote[0]) || old(deathNote[0]) in deathNote)) || j in deposit
      ensures r.Pass? ==> forall j :: j in old(arena) && j in arena ==> arena[j] == old(arena[j])
      ensures r.Pass? ==> forall j :: j in deposit ==>
        old(idManger.idCounter) <= j && j !in old(arena) && j in arena && IsDeposit(arena[j])
    {
      var k := deathNote[0];
      r, deposit := OnDestroy(k);
      if r.Fail? {
        return;
      }
      ghost var objects1, arena1 := objects, arena;
      Unlist(k);
      Buried(old(objects), old(arena), old(idManger.idCounter), old(deathNote), deposit, objects1, arena1,
             objects, arena, deathNote);
    }

    /** The death loop's state, as `Dying` says of the current fields. */
    ghost predicate DeathLoop(objects0: seq<nat>, a0: map<nat, Entity>, queue: seq<nat>, i: nat, deposits: seq<nat>)
      reads this, idManger
    {
      Dying(objects, arena, deathNote, idManger.idCounter, objects0, a0, queue, i, deposits)
    }

    /** One turn of the death loop: `Bury` the front entry. */
    method BuryNext(ghost objects0: seq<nat>, ghost a0: map<nat, Entity>, ghost queue: seq<nat>, ghost i: nat,
                    ghost deposits: seq<nat>) returns (r: Outcome, ghost deposit: seq<nat>)
      requires Valid() && DeathLoop(objects0, a0, queue, i, deposits) && |deathNote| > 0
      modifies this, idManger, chunkManager.Repr
      ensures Valid() && bornQueue == old(bornQueue)
      ensures r.Fail? ==> DeathLoop(objects0, a0, queue, i, deposits)
      ensures r.Pass? ==> DeathLoop(objects0, a0, queue, i + 1, deposits + deposit)
    {
      ghost var o, a, d, c := objects, arena, deathNote, idManger.idCounter;
      r, deposit := Bury();
      if r.Pass? {
        DyingNext(o, a, d, c, objects, arena, deathNote, idManger.idCounter, deposit, objects0, a0, queue, i, deposits);
      }
    }

    /** The death loop of `afterUpdate`: the queue is emptied front to back
        with `Bury`. Afterwards no object it named is left in the model, the
        rest keep their state and their order in the list, and the deposits
        follow them. */
    method BuryAll() returns (r: Outcome, ghost deposits: seq<nat>, ghost handled: nat)
      requires Valid()
      modifies this, idManger, chunkManager.Repr
      ensures Valid() && bornQueue == old(bornQueue)
      ensures r.Pass? ==> deathNote == []
      ensures Dying(objects, arena, deathNote, idManger.idCounter, old(objects), old(arena), old(deathNote), handled, deposits)
    {
      r, deposits := Pass, [];
      handled := 0;
      assert Members(deathNote[..0]) == {};
      WithoutNothing(objects, {});
      while |deathNote| > 0
        invariant Valid() && bornQueue == old(bornQueue)
        invariant DeathLoop(old(objects), old(arena), old(deathNote), handled, deposits)
        decreases |deathNote|
      {
        ghost var deposit;
        r, deposit := BuryNext(old(objects), old(arena), old(deathNote), handled, deposits);
        if r.Fail? {
          break;
        }
        deposits := deposits + deposit;
        handled := handled + 1;
      }
    }

    /** `addSmartBot`: the brain's `init` answers the spawn position and its
        budget (`-1` meaning the settings' amount); each allocation is
        raised to at least 0; spending beyond the budget is refused with
        `invalid_argument`; otherwise a `NewBot` at the position truncated
        to integers is added as `addObject` adds an object. */
    method AddSmartBot(brain: nat, pos: Vec2, healthKoef: real, foodKoef: real, evolutionPoints: int)
      returns (r: Result<nat>)
      requires Valid()
      modifies this, idManger, chunkManager.Repr
      ensures Valid() && deathNote == old(deathNote) && bornQueue == old(bornQueue)
      ensures r.Err? ==> objects == old(objects) && arena == old(arena)
      ensures old(idManger.idCounter) <= idManger.idCounter
      ensures r.Ok? ==> r.value == old(idManger.idCounter)
      ensures r.Ok? ==> arena.Keys == old(arena).Keys + {r.value} && forall j :: j in old(arena) ==> arena[j] == old(arena[j])
      ensures r.Ok? ==> arena[r.value].body.Bot? && arena[r.value].body.bot.brain == brain
      ensures var points := Budget(settings, evolutionPoints);
        var c := Clamped(brains.init(brain, Protocol.InitProtocol(pos, points)));
        var at := TruncVec(pos).ToReal();
        && (Spent(c) > points ==> r == Err(InvalidArgument))
        && (Spent(c) <= points ==>
              (r.Err? <==> !OnMap(at) || chunkManager.WhatChunkHere(at) == null || old(idManger.idCounter) == IDs.ULONG_MAX))
        && (r.Ok? ==>
              && r.value !in old(arena) && objects == old(objects) + [r.value]
              && arena == old(arena)[r.value := Adopted(
                   Entity(at, botRadius, None,
                          Bot(NewBot(settings, c, healthKoef, foodKoef, maxSeeDistance, brain, brains.initialDecision(brain)))),
                   r.value, arena[r.value].chunk.value)]
              && (settings.NonNegativeRates() ==> Bots.Healthy(arena[r.value].body.bot)))
    {
      var points := Budget(settings, evolutionPoints);
      var c := Clamped(brains.init(brain, Protocol.InitProtocol(pos, points)));
      if Spent(c) > points {
        return Err(InvalidArgument);
      }
      var b := NewBot(settings, c, healthKoef, foodKoef, maxSeeDistance, brain, brains.initialDecision(brain));
      if settings.NonNegativeRates() {
        NewBotIsHealthy(settings, brains.init(brain, Protocol.InitProtocol(pos, points)), healthKoef, foodKoef,
                        maxSeeDistance, brain, brains.initialDecision(brain));
      }
      r := AddObject(Entity(TruncVec(pos).ToReal(), botRadius, None, Bot(b)));
    }

    /** The front birth of the queue, as the birth loop of `afterUpdate`
        handles it: `addSmartBot` at 10% health and 50% food, then popped;
        a refused birth stays queued. */
    method Hatch() returns (r: Result<nat>)
      requires Valid() && |bornQueue| > 0
      modifies this, idManger, chunkManager.Repr
      ensures Valid() && deathNote == old(deathNote)
      ensures r.Err? ==> objects == old(objects) && arena == old(arena) && bornQueue == old(bornQueue)
      ensures r.Ok? ==> objects == old(objects) + [r.value] && bornQueue == old(bornQueue[1..])
      ensures r.Ok? ==> r.value !in old(arena) && arena.Keys == old(arena).Keys + {r.value}
      ensures old(idManger.idCounter) <= idManger.idCounter
      ensures r.Ok? ==> old(idManger.idCounter) <= r.value
      ensures r.Ok? ==> forall j :: j in old(arena) ==> arena[j] == old(arena[j])
      ensures r.Ok? ==> arena[r.value].body.Bot? && arena[r.value].body.bot.brain == old(bornQueue[0].brain)
    {
      var birth := bornQueue[0];
      r := AddSmartBot(birth.brain, birth.pos, 0.1, 0.5, birth.evolutionPoints);
      if r.Ok? {
        bornQueue := bornQueue[1..];
      }
    }

    /** The birth loop's state, as `Hatching` says of the current fields. */
    ghost predicate BirthLoop(objects0: seq<nat>, a0: map<nat, Entity>, c0: nat, queue: seq<Birth>, born: seq<nat>)
      reads this, idManger
    {
      Hatching(objects, arena, bornQueue, idManger.idCounter, objects0, a0, c0, queue, born)
    }

    /** One turn of the birth loop: `Hatch` the front entry. */
    method HatchNext(ghost objects0: seq<nat>, ghost a0: map<nat, Entity>, ghost c0: nat, ghost queue: seq<Birth>,
                     ghost born: seq<nat>) returns (r: Result<nat>)
      requires Valid() && BirthLoop(objects0, a0, c0, queue, born) && |bornQueue| > 0
      modifies this, idManger, chunkManager.Repr
      ensures Valid() && deathNote == old(deathNote)
      ensures r.Err? ==> BirthLoop(objects0, a0, c0, queue, born)
      ensures r.Ok? ==> BirthLoop(objects0, a0, c0, queue, born + [r.value])
    {
      ghost var o, a, q, c := objects, arena, bornQueue, idManger.idCounter;
      r := Hatch();
      if r.Ok? {
        HatchingNext(o, a, q, c, objects, arena, bornQueue, idManger.idCounter, r.value, objects0, a0, c0, queue, born);
      }
    }

    /** The birth loop of `afterUpdate`: `Hatch` until the queue is empty or
        a birth is refused, which ends `afterUpdate`. */
    method HatchAll() returns (r: Outcome, ghost born: seq<nat>)
      requires Valid()
      modifies this, idManger, chunkManager.Repr
      ensures Valid() && deathNote == old(deathNote)
      ensures r.Pass? <==> |born| == |old(bornQueue)|
      ensures Hatching(objects, arena, bornQueue, idManger.idCounter, old(objects), old(arena), old(idManger.idCounter),
                       old(bornQueue), born)
    {
      r, born := Pass, [];
      while |bornQueue| > 0
        invariant Valid() && deathNote == old(deathNote)
        invariant BirthLoop(old(objects), old(arena), old(idManger.idCounter), old(bornQueue), born)
        decreases |bornQueue|
      {
        var id := HatchNext(old(objects), old(arena), old(idManger.idCounter), old(bornQueue), born);
        if id.Err? {
          r := Fail(id.error);
          break;
        }
        born := born + [id.value];
      }
    }

    /** `afterUpdate`: the death loop, then the birth loop. */
    method AfterUpdate() returns (r: Outcome, ghost deposits: seq<nat>, ghost born: seq<nat>)
      requires Valid()
      modifies this, idManger, chunkManager.Repr
      ensures Valid()
      ensures r.Pass? ==> deathNote == [] && bornQueue == []
      ensures r.Pass? ==> objects == Without(old(objects), Members(old(deathNote))) + deposits + born
      ensures r.Pass? ==> forall j :: j in old(deathNote) ==> j !in arena
      ensures forall j :: j in old(arena) && j !in old(deathNote) ==> j in arena && arena[j] == old(arena[j])
      ensures forall j :: j in deposits ==> j !in old(arena) && j in arena && IsDeposit(arena[j])
      ensures |born| <= |old(bornQueue)| && (r.Pass? ==> |born| == |old(bornQueue)|)
      ensures forall n :: 0 <= n < |born| ==>
        && born[n] !in old(arena) && born[n] in arena
        && arena[born[n]].body.Bot? && arena[born[n]].body.bot.brain == old(bornQueue)[n].brain
    {
      born := [];
      ghost var handled;
      r, deposits, handled := BuryAll();
      DyingEnds(objects, arena, deathNote, idManger.idCounter, old(objects), old(arena), old(deathNote), handled, deposits);
      if r.Fail? {
        return;
      }
      r, born := HatchAll();
    }

    /** `markForDeletion`: the object joins the back of the death queue, once
        per call. */
    method MarkForDeletion(k: nat)
      requires Valid() && k in objects
      modifies this`deathNote
      ensures Valid()
      ensures deathNote == old(deathNote) + [k]
    {
      deathNote := deathNote + [k];
    }
  }
}
