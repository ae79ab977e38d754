/** Counter: a RangeValue<int> whose minimum is fixed at 0, stepped by one. */
module Counters {

  /** `std::max(std::min(v, hi), lo)` on `int`, as RangeValue<int>::set uses it. */
  function ClampInt(v: int, lo: int, hi: int): (r: int)
    ensures lo <= hi ==> lo <= r <= hi
    ensures lo <= v <= hi ==> r == v
    ensures v < lo ==> r == lo
    ensures lo <= hi < v ==> r == hi
    ensures hi < lo ==> r == lo
  {
    var m := if v <= hi then v else hi;
    if m >= lo then m else lo
  }

  class Counter {
    var value: int
    var maxValue: int

    /** The range invariant, which the constructor does not establish. */
    ghost predicate InRange()
      reads this
    {
      0 <= value <= maxValue
    }

    /** Stores the value unclamped, with minimum 0. */
    constructor (value_: int, maxValue_: int)
      ensures value == value_ && maxValue == maxValue_
    {
      value, maxValue := value_, maxValue_;
    }

    /** Adds one, saturating at the maximum; reports whether the maximum is
        reached. */
    method Increment() returns (reachedMax: bool)
      modifies this`value
      ensures value == ClampInt(old(value) + 1, 0, maxValue)
      ensures reachedMax <==> value == maxValue
      ensures 0 <= maxValue ==> InRange()
      ensures old(value) == maxValue >= 0 ==> value == maxValue && reachedMax
    {
      value := ClampInt(value + 1, 0, maxValue);
      reachedMax := IsMax();
    }

    /** Subtracts one, saturating at 0; reports whether 0 is reached. */
    method Decrement() returns (reachedMin: bool)
      modifies this`value
      ensures value == ClampInt(old(value) - 1, 0, maxValue)
      ensures reachedMin <==> value == 0
      ensures 0 <= maxValue ==> InRange()
      ensures old(value) == 0 <= maxValue ==> value == 0 && reachedMin
    {
      value := ClampInt(value - 1, 0, maxValue);
      reachedMin := IsMin();
    }

    function IsMax(): bool reads this { value == maxValue }

    function IsMin(): bool reads this { value == 0 }
  }
}
