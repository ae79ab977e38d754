/** IDManager hands out object IDs 0, 1, 2, ...; ObjectID holds one of them. */
module IDs {
  import opened Wrappers

  /** ULONG_MAX on an LP64 platform. */
  const ULONG_MAX: nat := 0xFFFF_FFFF_FFFF_FFFF

  class IDManager {
    var idCounter: nat
    /** Every ID handed out so far, in order. */
    ghost var issued: seq<nat>

    ghost predicate Valid()
      reads this
    {
      idCounter <= ULONG_MAX &&
      |issued| == idCounter &&
      forall i :: 0 <= i < |issued| ==> issued[i] == i
    }

    constructor ()
      ensures Valid() && idCounter == 0 && issued == []
    {
      idCounter := 0;
      issued := [];
    }

    /** Returns the counter and increments it; at ULONG_MAX it fails and leaves
        the counter alone. */
    method GetAssignValue() returns (r: Result<nat>)
      requires Valid()
      modifies this
      ensures Valid()
      ensures old(idCounter) == ULONG_MAX ==>
        r == Err(OverflowError) && idCounter == old(idCounter) && issued == old(issued)
      ensures old(idCounter) < ULONG_MAX ==>
        r == Ok(old(idCounter)) && idCounter == old(idCounter) + 1 && issued == old(issued) + [r.value]
      ensures r.Ok? ==> forall i :: 0 <= i < |old(issued)| ==> old(issued)[i] < r.value
    {
      if idCounter == ULONG_MAX {
        return Err(OverflowError);
      }
      idCounter := idCounter + 1;
      issued := issued + [idCounter - 1];
      r := Ok(idCounter - 1);
    }

    /** The number of IDs handed out so far. */
    function GetCurrentIdCounter(): (n: nat)
      requires Valid()
      reads this
      ensures n == |issued|
    {
      idCounter
    }
  }

  /** The IDs of one manager are strictly increasing, hence pairwise distinct. */
  lemma IssuedStrictlyIncreasing(m: IDManager, i: nat, j: nat)
    requires m.Valid() && i < j < |m.issued|
    ensures m.issued[i] < m.issued[j]
  {
  }

  /** The two fields of an ObjectID. `id` is meaningful only when `idSet` holds
      or a value was stored by `set`. */
  datatype IdSlot = IdSlot(idSet: bool, id: nat)

  /** `ObjectID()`: no ID yet. The id field is uninitialised in C++; 0 stands
      for it here. */
  const Unset := IdSlot(false, 0)

  /** `ObjectID::set` as written: it stores the ID when none was set but never
      records that one now is, so it can be called again. */
  function SetAsWritten(s: IdSlot, v: nat): (r: Result<IdSlot>)
    ensures s.idSet <==> r.Err?
    ensures r.Err? ==> r.error == RuntimeError
    ensures r.Ok? ==> r.value.id == v && !r.value.idSet
  {
    if !s.idSet then Ok(s.(id := v)) else Err(RuntimeError)
  }

  /** The documented contract of `ObjectID::set`: the first call stores the ID
      and marks it set, every later call fails. */
  function SetOnce(s: IdSlot, v: nat): (r: Result<IdSlot>)
    ensures s.idSet <==> r.Err?
    ensures r.Err? ==> r.error == RuntimeError
    ensures r.Ok? ==> r.value == IdSlot(true, v)
  {
    if !s.idSet then Ok(IdSlot(true, v)) else Err(RuntimeError)
  }

  /** As written, a second `set` on a default-constructed ObjectID succeeds and
      overwrites the first ID. */
  lemma SetAsWrittenOverwrites(a: nat, b: nat)
    requires a != b
    ensures SetAsWritten(Unset, a).Ok?
    ensures SetAsWritten(SetAsWritten(Unset, a).value, b) == Ok(IdSlot(false, b))
  {
  }

  /** With the documented contract, any second `set` fails and the ID stays. */
  lemma SetOnceIsFinal(s: IdSlot, a: nat, b: nat)
    requires SetOnce(s, a).Ok?
    ensures SetOnce(SetOnce(s, a).value, b) == Err(RuntimeError)
    ensures SetOnce(s, a).value.id == a
  {
  }

  /** The ObjectID object; `Set` behaves as the code does (see SetAsWritten). */
  class ObjectID {
    var idSet: bool
    var id: nat

    function Slot(): IdSlot reads this { IdSlot(idSet, id) }

    constructor Empty()
      ensures Slot() == Unset
    {
      idSet, id := false, 0;
    }

    constructor (id_: nat)
      ensures Slot() == IdSlot(true, id_)
    {
      idSet, id := true, id_;
    }

    method Set(id_: nat) returns (r: Outcome)
      modifies this
      ensures SetAsWritten(old(Slot()), id_).Err? ==> r == Fail(RuntimeError) && Slot() == old(Slot())
      ensures SetAsWritten(old(Slot()), id_).Ok? ==> r == Pass && Slot() == SetAsWritten(old(Slot()), id_).value
    {
      if !idSet {
        id := id_;
        r := Pass;
      } else {
        r := Fail(RuntimeError);
      }
    }

    function Get(): nat reads this { id }
  }
}
