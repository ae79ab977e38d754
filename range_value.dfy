/** RangeValue<float>/RangeValue<double>: a number kept in [minValue, maxValue]
    by every setter. Coordinates and stats are `real`, so there is no rounding. */
module RangeValues {
  import opened Wrappers

  function Min(a: real, b: real): real { if a <= b then a else b }
  function Max(a: real, b: real): real { if a >= b then a else b }

  /** `std::max(std::min(v, hi), lo)`: the bounds-respecting value nearest to `v`.
      With crossed bounds (`hi < lo`) the lower bound wins. */
  function Clamp(v: real, lo: real, hi: real): (r: real)
    ensures lo <= hi ==> lo <= r <= hi
    ensures lo <= v <= hi ==> r == v
    ensures v < lo ==> r == lo
    ensures lo <= hi < v ==> r == hi
    ensures hi < lo ==> r == lo
  {
    Max(Min(v, hi), lo)
  }

  /** The three fields of a RangeValue, as a value. The functions below are the
      specification of the setters; class RangeValue applies them in place. */
  datatype Range = Range(value: real, minValue: real, maxValue: real)
  {
    predicate WellFormed() { minValue <= maxValue }
    predicate InRange() { minValue <= value <= maxValue }

    function Set(v: real): (r: Range)
      ensures r.minValue == minValue && r.maxValue == maxValue
      ensures WellFormed() ==> r.InRange()
      ensures minValue <= v <= maxValue ==> r.value == v
    {
      this.(value := Clamp(v, minValue, maxValue))
    }

    function Increase(amount: real): Range { Set(value + amount) }

    function Decrease(amount: real): Range { Set(value - amount) }

    /** `setMax`: rejected below the minimum, otherwise the value is lowered to
        the new maximum if needed. */
    function SetMax(m: real): (r: Result<Range>)
      ensures m < minValue <==> r.Err?
      ensures r.Err? ==> r.error == InvalidArgument
      ensures r.Ok? ==> r.value.maxValue == m && r.value.minValue == minValue
      ensures r.Ok? ==> r.value.value <= m
      ensures r.Ok? && value <= m ==> r.value.value == value
      ensures r.Ok? && InRange() ==> r.value.InRange()
    {
      if m < minValue then Err(InvalidArgument)
      else Ok(Range(Min(value, m), minValue, m))
    }

    /** `setMin`: rejected above the maximum, otherwise the value is raised to
        the new minimum if needed. */
    function SetMin(m: real): (r: Result<Range>)
      ensures m > maxValue <==> r.Err?
      ensures r.Err? ==> r.error == InvalidArgument
      ensures r.Ok? ==> r.value.minValue == m && r.value.maxValue == maxValue
      ensures r.Ok? ==> r.value.value >= m
      ensures r.Ok? && value >= m ==> r.value.value == value
      ensures r.Ok? && InRange() ==> r.value.InRange()
    {
      if m > maxValue then Err(InvalidArgument)
      else Ok(Range(Max(value, m), m, maxValue))
    }

    /** `normalize`: the relative position of the value between the bounds. */
    function Normalize(): (r: Result<real>)
      ensures minValue == maxValue <==> r.Err?
      ensures r.Err? ==> r.error == InvalidArgument
      ensures r.Ok? ==> r.value * (maxValue - minValue) == value - minValue
    {
      if minValue == maxValue then Err(InvalidArgument)
      else Ok((value - minValue) / (maxValue - minValue))
    }
  }

  /** `increase` and `decrease` keep a well-formed range in range for any
      amount, however large or negative. */
  lemma StepsStayInRange(r: Range, amount: real)
    requires r.WellFormed()
    ensures r.Increase(amount).InRange() && r.Decrease(amount).InRange()
    ensures r.Increase(amount).WellFormed() && r.Decrease(amount).WellFormed()
  {
  }

  /** Setting the same value twice is the same as setting it once. */
  lemma SetIdempotent(r: Range, v: real)
    ensures r.Set(v).Set(v) == r.Set(v)
  {
  }

  /** `normalize` lies in [0, 1] for a value in range; the ends of the range map
      to 0 and 1. */
  lemma NormalizeBounds(r: Range)
    requires r.InRange() && r.minValue < r.maxValue
    ensures 0.0 <= r.Normalize().value <= 1.0
    ensures r.value == r.minValue ==> r.Normalize().value == 0.0
    ensures r.value == r.maxValue ==> r.Normalize().value == 1.0
  {
    var q, d, n := r.Normalize().value, r.maxValue - r.minValue, r.value - r.minValue;
    assert q * d == n && 0.0 <= n <= d;
    assert (1.0 - q) * d == d - n;
    if n == d {
      ZeroFactor(1.0 - q, d);
    }
  }

  lemma ZeroFactor(a: real, d: real)
    requires d > 0.0 && a * d == 0.0
    ensures a == 0.0
  {
  }

  /** The mutable RangeValue object; each method applies the matching
      `Range` function to the three fields. */
  class RangeValue {
    var value: real
    var minValue: real
    var maxValue: real

    function State(): Range
      reads this
    {
      Range(value, minValue, maxValue)
    }

    /** The default constructor: everything zero. */
    constructor Default()
      ensures State() == Range(0.0, 0.0, 0.0)
    {
      value, minValue, maxValue := 0.0, 0.0, 0.0;
    }

    /** The three-argument constructor stores its arguments unclamped. */
    constructor (value_: real, minValue_: real, maxValue_: real)
      ensures State() == Range(value_, minValue_, maxValue_)
    {
      value, minValue, maxValue := value_, minValue_, maxValue_;
    }

    function Get(): real reads this { value }
    function GetMax(): real reads this { maxValue }
    function GetMin(): real reads this { minValue }

    method Set(v: real)
      modifies this
      ensures State() == old(State()).Set(v)
    {
      value := Max(Min(v, maxValue), minValue);
    }

    method Increase(amount: real)
      modifies this
      ensures State() == old(State()).Increase(amount)
    {
      Set(value + amount);
    }

    method Decrease(amount: real)
      modifies this
      ensures State() == old(State()).Decrease(amount)
    {
      Set(value - amount);
    }

    method SetMax(m: real) returns (r: Outcome)
      modifies this
      ensures old(State()).SetMax(m).Err? ==> r == Fail(InvalidArgument) && State() == old(State())
      ensures old(State()).SetMax(m).Ok? ==> r == Pass && State() == old(State()).SetMax(m).value
    {
      if m < minValue {
        return Fail(InvalidArgument);
      }
      maxValue := m;
      value := Min(value, maxValue);
      r := Pass;
    }

    method SetMin(m: real) returns (r: Outcome)
      modifies this
      ensures old(State()).SetMin(m).Err? ==> r == Fail(InvalidArgument) && State() == old(State())
      ensures old(State()).SetMin(m).Ok? ==> r == Pass && State() == old(State()).SetMin(m).value
    {
      if m > maxValue {
        return Fail(InvalidArgument);
      }
      minValue := m;
      value := Max(value, minValue);
      r := Pass;
    }

    function Normalize(): Result<real>
      reads this
    {
      State().Normalize()
    }
  }
}
