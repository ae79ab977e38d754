/** The brain registry (`BrainsRegistry`): a map from population names to
    factories, kept in the ascending key order of a `std::map`. A factory is
    stood for by the index of the brain it produces, the index the
    simulation's `Brains` tell brains apart by. */
module BrainsRegistries {
  import opened Wrappers

  /** `std::string`'s `operator<`: lexicographic order on characters, a
      proper prefix coming first. */
  predicate Below(a: string, b: string)
  {
    if |a| == 0 then |b| > 0
    else |b| > 0 && (a[0] < b[0] || (a[0] == b[0] && Below(a[1..], b[1..])))
  }

  /** No name comes before itself. */
  lemma {:induction false} BelowIrreflexive(a: string)
    ensures !Below(a, a)
  {
    if |a| > 0 {
      BelowIrreflexive(a[1..]);
    }
  }

  /** Of two different names one comes first. */
  lemma {:induction false} BelowTotal(a: string, b: string)
    ensures a != b ==> Below(a, b) || Below(b, a)
  {
    if |a| > 0 && |b| > 0 && a[0] == b[0] {
      BelowTotal(a[1..], b[1..]);
      if a[1..] == b[1..] {
        assert a == [a[0]] + a[1..] && b == [b[0]] + b[1..];
      }
    }
  }

  /** The order is transitive. */
  lemma {:induction false} BelowTransitive(a: string, b: string, c: string)
    requires Below(a, b) && Below(b, c)
    ensures Below(a, c)
  {
    if |a| > 0 && a[0] == b[0] && b[0] == c[0] {
      BelowTransitive(a[1..], b[1..], c[1..]);
    }
  }

  /** Two names are never each before the other. */
  lemma {:induction false} BelowAsymmetric(a: string, b: string)
    requires Below(a, b)
    ensures !Below(b, a)
  {
    if Below(b, a) {
      BelowTransitive(a, b, a);
      BelowIrreflexive(a);
    }
  }

  /** `m` comes before every other name of `s`. */
  predicate LeastOf(m: string, s: set<string>)
  {
    m in s && forall x :: x in s && x != m ==> Below(m, x)
  }

  /** A non-empty set of names has a least one. */
  lemma {:induction false} LeastExists(s: set<string>)
    requires s != {}
    ensures exists m :: LeastOf(m, s)
    decreases |s|
  {
    var y :| y in s;
    var rest := s - {y};
    if rest == {} {
      forall x | x in s
        ensures x == y
      {
        assert x !in rest;
      }
      assert LeastOf(y, s);
    } else {
      LeastExists(rest);
      var m :| LeastOf(m, rest);
      BelowTotal(y, m);
      if Below(y, m) {
        forall x | x in s && x != y
          ensures Below(y, x)
        {
          if x != m {
            BelowTransitive(y, m, x);
          }
        }
        assert LeastOf(y, s);
      } else {
        assert LeastOf(m, s);
      }
    }
  }

  /** Names in strictly ascending order, hence each at most once. */
  predicate Ascending(names: seq<string>)
  {
    forall i, j :: 0 <= i < j < |names| ==> Below(names[i], names[j])
  }

  /** An ascending list repeats no name. */
  lemma AscendingDistinct(names: seq<string>)
    requires Ascending(names)
    ensures forall i, j :: 0 <= i < j < |names| ==> names[i] != names[j]
  {
    forall i, j | 0 <= i < j < |names|
      ensures names[i] != names[j]
    {
      BelowIrreflexive(names[i]);
    }
  }

  /** In an ascending list, a name is in the tail exactly when it is in
      the list and is not its head. */
  lemma InTail(a: seq<string>, x: string)
    requires Ascending(a) && |a| > 0
    ensures x in a[1..] <==> x in a && x != a[0]
  {
    if x in a[1..] {
      var i :| 1 <= i < |a| && a[i] == x;
      BelowIrreflexive(x);
    }
    if x in a && x != a[0] {
      var i :| 0 <= i < |a| && a[i] == x;
      assert a[1..][i - 1] == x;
    }
  }

  /** An ascending list of a set's names is the only one: the set decides
      it. */
  lemma {:induction false} AscendingUnique(a: seq<string>, b: seq<string>)
    requires Ascending(a) && Ascending(b)
    requires forall x :: x in a <==> x in b
    ensures a == b
    decreases |a|
  {
    if |a| > 0 {
      assert a[0] in b;
    }
    if |b| > 0 {
      assert b[0] in a;
    }
    if |a| > 0 && |b| > 0 {
      forall x | x in b && x != a[0]
        ensures Below(a[0], x)
      {
        var i :| 0 < i < |a| && a[i] == x;
      }
      forall x | x in a && x != b[0]
        ensures Below(b[0], x)
      {
        var i :| 0 < i < |b| && b[i] == x;
      }
      if a[0] != b[0] {
        assert Below(a[0], b[0]) && Below(b[0], a[0]);
        BelowAsymmetric(a[0], b[0]);
      }
      forall x
        ensures x in a[1..] <==> x in b[1..]
      {
        if x in a[1..] {
          InTail(a, x);
          InTail(b, x);
        }
        if x in b[1..] {
          InTail(b, x);
          InTail(a, x);
        }
      }
      AscendingUnique(a[1..], b[1..]);
      assert a == [a[0]] + a[1..] && b == [b[0]] + b[1..];
    }
  }

  /** The singleton registry of the program: its factories by name. */
  class BrainsRegistry {
    var factories: map<string, nat>

    /** An empty registry, as the program starts with. */
    constructor ()
      ensures factories == map[]
    {
      factories := map[];
    }

    /** `registerBot`: `name` maps to `factory`, replacing an earlier
        factory of that name; no other name changes. */
    method RegisterBot(name: string, factory: nat)
      modifies this
      ensures factories == old(factories)[name := factory]
      ensures factories.Keys == old(factories).Keys + {name}
      ensures forall n :: n in old(factories) && n != name ==> factories[n] == old(factories[n])
      ensures CreateBot(name) == Ok(factory)
      ensures forall n :: n != name ==> CreateBot(n) == old(CreateBot(n))
    {
      factories := factories[name := factory];
    }

    /** `createBot`: what the factory registered under `name` produces, or
        a `runtime_error` when no factory has that name. */
    function CreateBot(name: string): (r: Result<nat>)
      reads this
      ensures r.Ok? <==> name in factories
      ensures r.Ok? ==> r.value == factories[name]
      ensures r.Err? ==> r.error == RuntimeError
    {
      if name in factories then Ok(factories[name]) else Err(RuntimeError)
    }

    /** `listRegisteredBots`: the registered names in the map's ascending
        key order, each once. The walk over the map is the loop taking the
        least name not yet listed. */
    method ListRegisteredBots() returns (names: seq<string>)
      ensures Ascending(names)
      ensures forall n :: n in names <==> n in factories
      ensures |names| == |factories.Keys|
    {
      names := [];
      var left := factories.Keys;
      while left != {}
        invariant left <= factories.Keys
        invariant forall n :: n in names <==> n in factories && n !in left
        invariant Ascending(names)
        invariant forall x, y :: x in names && y in left ==> Below(x, y)
        invariant |names| + |left| == |factories.Keys|
        decreases |left|
      {
        LeastExists(left);
        var m :| LeastOf(m, left);
        names := names + [m];
        left := left - {m};
      }
    }
  }
}
