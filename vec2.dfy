/** Vec2<float>/Vec2<double> (`Vec2`) and Vec2<int> (`IVec2`): component-wise
    arithmetic and the component-wise partial order. */
module Vectors {
  import opened Wrappers

  /** `static_cast<int>` of a float: truncation toward zero. */
  function Trunc(r: real): (n: int)
    ensures n as real <= r < n as real + 1.0 || n as real - 1.0 < r <= n as real
    ensures 0.0 <= r ==> 0 <= n && n as real <= r < n as real + 1.0
    ensures r <= 0.0 ==> n <= 0 && n as real - 1.0 < r <= n as real
  {
    if r >= 0.0 then r.Floor else -((-r).Floor)
  }

  function Abs(a: int): nat { if a < 0 then -a else a }

  /** C++ integer division, which truncates toward zero (Dafny's `/` does not
      for negative operands). */
  function Quot(a: int, b: int): (q: int)
    requires b != 0
    ensures Abs(q) == Abs(a) / Abs(b)
    ensures q > 0 ==> (a > 0) == (b > 0)
    ensures q < 0 ==> (a > 0) != (b > 0)
  {
    QuotientFacts(Abs(a), Abs(b));
    if (a < 0) == (b < 0) then Abs(a) / Abs(b) else -(Abs(a) / Abs(b))
  }

  /** The quotient of naturals is a natural, and zero when the dividend is. */
  lemma QuotientFacts(n: nat, m: nat)
    requires m > 0
    ensures 0 <= n / m && (n / m > 0 ==> n > 0)
  {
    if n == 0 {
      assert n / m == 0;
    }
  }

  /** The square root of a float length, truncated to int: the largest `r` with
      `r * r <= n`. */
  function ISqrt(n: nat): (r: nat)
    ensures r * r <= n < (r + 1) * (r + 1)
  {
    if n == 0 then 0
    else
      var s := ISqrt(n - 1);
      if (s + 1) * (s + 1) <= n then s + 1 else s
  }

  /** What the model assumes of `std::sqrt`: exact on non-negative reals. */
  ghost predicate SqrtSound(sqrt: real -> real)
  {
    && sqrt(0.0) == 0.0
    && forall r: real {:trigger sqrt(r)} :: 0.0 <= r ==> 0.0 <= sqrt(r) && sqrt(r) * sqrt(r) == r
  }

  datatype Vec2 = Vec2(x: real, y: real)
  {
    function Add(o: Vec2): Vec2 { Vec2(x + o.x, y + o.y) }
    function Sub(o: Vec2): Vec2 { Vec2(x - o.x, y - o.y) }
    function Scale(s: real): Vec2 { Vec2(x * s, y * s) }
    /** `operator*(Vec2)`: the component-wise product. */
    function Mul(o: Vec2): Vec2 { Vec2(x * o.x, y * o.y) }
    /** `p ± r` with a scalar, as the (unshown) scalar operators are used:
        the scalar is added to both components. */
    function AddScalar(s: real): Vec2 { Vec2(x + s, y + s) }
    function SubScalar(s: real): Vec2 { Vec2(x - s, y - s) }

    /** `operator/(scalar)`: fails on 0, otherwise undoes `Scale`. */
    function Div(s: real): (r: Result<Vec2>)
      ensures s == 0.0 <==> r.Err?
      ensures r.Err? ==> r.error == InvalidArgument
      ensures r.Ok? ==> r.value.Scale(s) == this
    {
      if s != 0.0 then Ok(Vec2(x / s, y / s)) else Err(InvalidArgument)
    }

    function Dot(o: Vec2): real { x * o.x + y * o.y }

    function SqrLength(): real { x * x + y * y }

    /** `sqrDistanceTo` (not shown in the source): squared Euclidean distance. */
    function SqrDistanceTo(o: Vec2): real { Sub(o).SqrLength() }

    function Length(sqrt: real -> real): real { sqrt(SqrLength()) }

    /** `normalize`: a vector whose length is 0 is returned unchanged, any
        other vector is divided by its length. */
    function Normalize(sqrt: real -> real): (r: Vec2)
      ensures Length(sqrt) == 0.0 ==> r == this
      ensures Length(sqrt) != 0.0 ==> r.Scale(Length(sqrt)) == this
    {
      var len := Length(sqrt);
      if len != 0.0 then Vec2(x / len, y / len) else this
    }

    predicate Eq(o: Vec2) { x == o.x && y == o.y }
    predicate Ne(o: Vec2) { !Eq(o) }
    predicate Gt(o: Vec2) { x > o.x && y > o.y }
    predicate Ge(o: Vec2) { x >= o.x && y >= o.y }
    predicate Lt(o: Vec2) { x < o.x && y < o.y }
    predicate Le(o: Vec2) { x <= o.x && y <= o.y }
  }

  const Zero := Vec2(0.0, 0.0)

  datatype IVec2 = IVec2(x: int, y: int)
  {
    function Add(o: IVec2): IVec2 { IVec2(x + o.x, y + o.y) }
    function Sub(o: IVec2): IVec2 { IVec2(x - o.x, y - o.y) }
    function AddScalar(s: int): IVec2 { IVec2(x + s, y + s) }
    function SubScalar(s: int): IVec2 { IVec2(x - s, y - s) }
    /** The converting constructor Vec2<float>(Vec2<int>). */
    function ToReal(): Vec2 { Vec2(x as real, y as real) }

    /** The squared length, computed exactly. */
    function SqrLength(): nat
    {
      SquareNonNeg(x);
      SquareNonNeg(y);
      x * x + y * y
    }

    /** `normalize` for T = int: the float length is truncated to an int and
        each component is divided by it with C++ integer division. */
    function Normalize(): (r: IVec2)
      ensures x == 0 && y == 0 ==> r == this
      ensures -1 <= r.x <= 1 && -1 <= r.y <= 1
    {
      var len := ISqrt(SqrLength());
      if len != 0 then
        NormalizeBounds(this, len);
        IVec2(Quot(x, len), Quot(y, len))
      else this
    }
  }

  /** The converting constructor Vec2<int>(Vec2<float>). */
  function TruncVec(v: Vec2): IVec2 { IVec2(Trunc(v.x), Trunc(v.y)) }

  /** Each component divided by the truncated length is -1, 0 or 1, and 0
      for a zero component. */
  lemma NormalizeBounds(v: IVec2, len: nat)
    requires len == ISqrt(v.SqrLength()) && len != 0
    ensures -1 <= Quot(v.x, len) <= 1 && -1 <= Quot(v.y, len) <= 1
    ensures v.x == 0 ==> Quot(v.x, len) == 0
    ensures v.y == 0 ==> Quot(v.y, len) == 0
  {
    var x, y := v.x, v.y;
    SquareBelowRoot(x, y, len);
    assert x * x + y * y == y * y + x * x;
    SquareBelowRoot(y, x, len);
    QuotientFacts(0, len);
  }

  /** A component is at most the truncated length, so dividing by it gives
      -1, 0 or 1. */
  lemma SquareBelowRoot(a: int, b: int, len: nat)
    requires len == ISqrt(a * a + b * b) && len != 0
    ensures Abs(a) <= len && Abs(a) / len <= 1
  {
    var n := a * a + b * b;
    assert Abs(a) * Abs(a) <= n by {
      assert Abs(a) * Abs(a) == a * a;
      SquareNonNeg(b);
    }
    SquareLess(Abs(a), len + 1);
    DivAtMostOne(Abs(a), len);
  }

  lemma SquareNonNeg(b: int)
    ensures b * b >= 0
  {
    assert b * b == Abs(b) * Abs(b);
  }

  lemma MulMono(a: nat, b: nat)
    ensures a <= b ==> a * a <= b * b
  {
    if a <= b {
      assert a * a <= a * b <= b * b;
    }
  }

  /** Squares of naturals compare like the naturals. */
  lemma SquareLess(p: nat, q: nat)
    requires p * p < q * q
    ensures p < q
  {
    MulMono(q, p);
  }

  lemma DivAtMostOne(p: nat, q: nat)
    requires 0 < q && p <= q
    ensures p / q <= 1
  {
    var d := p / q;
    assert p == q * d + p % q;
    MulLowerBound(q, d);
  }

  lemma MulLowerBound(q: nat, d: nat)
    ensures d >= 2 ==> q * d >= 2 * q
  {
    if d >= 2 {
      assert q * d == q * (d - 2) + 2 * q;
    }
  }

  /** `Vec2<T>::right` ... `left_up`. */
  const Right := IVec2(1, 0)
  const Down := IVec2(0, -1)
  const Left := IVec2(-1, 0)
  const Up := IVec2(0, 1)
  const RightUp := IVec2(1, 1)
  const DownRight := IVec2(1, -1)
  const DownLeft := IVec2(-1, -1)
  const LeftUp := IVec2(-1, 1)

  const Directions4Int: seq<IVec2> := [Right, Down, Left, Up]
  const Directions8Int: seq<IVec2> := [Right, DownRight, Down, DownLeft, Left, LeftUp, Up, RightUp]

  /** `(a + b) - b == a`, and `+`, `-` work component by component. */
  lemma AddSubCancel(a: IVec2, b: IVec2)
    ensures a.Add(b).Sub(b) == a
    ensures a.Add(b).x == a.x + b.x && a.Sub(b).y == a.y - b.y
  {
  }

  /** `!=` negates `==`, and `==` is component-wise equality. */
  lemma EqualityOperators(a: Vec2, b: Vec2)
    ensures a.Eq(b) <==> a == b
    ensures a.Ne(b) <==> a != b
  {
  }

  /** `dot` is symmetric and `v.dot(v)` is the squared length. */
  lemma DotSymmetric(a: Vec2, b: Vec2)
    ensures a.Dot(b) == b.Dot(a)
    ensures a.Dot(a) == a.SqrLength() >= 0.0
  {
  }

  /** `<=` is a partial order, `<` implies `<=`, `>`/`>=` are the converses, and
      two vectors can be incomparable. */
  lemma ComparisonOrder(a: Vec2, b: Vec2, c: Vec2)
    ensures a.Le(a)
    ensures a.Le(b) && b.Le(a) ==> a == b
    ensures a.Le(b) && b.Le(c) ==> a.Le(c)
    ensures a.Lt(b) ==> a.Le(b) && !b.Le(a)
    ensures a.Ge(b) <==> b.Le(a)
    ensures a.Gt(b) <==> b.Lt(a)
    ensures !Vec2(0.0, 1.0).Le(Vec2(1.0, 0.0)) && !Vec2(1.0, 0.0).Le(Vec2(0.0, 1.0))
  {
  }

  /** Dividing by a non-zero length gives a vector of length 1 when `sqrt` is
      exact. */
  lemma NormalizeUnit(v: Vec2, sqrt: real -> real)
    requires SqrtSound(sqrt) && v.Length(sqrt) != 0.0
    ensures v.Normalize(sqrt).SqrLength() == 1.0
  {
    var len := v.Length(sqrt);
    var r := v.Normalize(sqrt);
    UnitAfterDivision(r.x, r.y, v.x, v.y, len);
  }

  lemma UnitAfterDivision(rx: real, ry: real, vx: real, vy: real, len: real)
    requires len != 0.0 && rx * len == vx && ry * len == vy
    requires len * len == vx * vx + vy * vy
    ensures rx * rx + ry * ry == 1.0
  {
    SquareOfProduct(rx, len, vx);
    SquareOfProduct(ry, len, vy);
    var k := rx * rx + ry * ry - 1.0;
    assert k * (len * len) == (rx * rx) * (len * len) + (ry * ry) * (len * len) - len * len;
    assert (k * len) * len == k * (len * len);
    ZeroProduct(k * len, len);
    ZeroProduct(k, len);
  }

  lemma SquareOfProduct(a: real, b: real, c: real)
    requires a * b == c
    ensures (a * a) * (b * b) == c * c
  {
    assert (a * a) * (b * b) == (a * b) * (a * b);
  }

  lemma ZeroProduct(x: real, l: real)
    requires l != 0.0 && x * l == 0.0
    ensures x == 0.0
  {
  }

  /** The zero vector has length 0, so `normalize` returns it unchanged. */
  lemma NormalizeZero(sqrt: real -> real)
    requires SqrtSound(sqrt)
    ensures Zero.Length(sqrt) == 0.0 && Zero.Normalize(sqrt) == Zero
  {
  }

  /** An axis-aligned non-zero Vec2<int> normalises to the unit direction. */
  lemma NormalizeIntAxis(k: int)
    requires k != 0
    ensures IVec2(k, 0).Normalize() == (if k > 0 then Right else Left)
    ensures IVec2(0, k).Normalize() == (if k > 0 then Up else Down)
  {
    assert IVec2(k, 0).SqrLength() == Abs(k) * Abs(k) && IVec2(0, k).SqrLength() == Abs(k) * Abs(k);
    RootOfSquare(Abs(k));
    SelfQuotient(k);
  }

  /** The truncated root of a perfect square is its root. */
  lemma RootOfSquare(n: nat)
    ensures ISqrt(n * n) == n
  {
    var len := ISqrt(n * n);
    SquareLess(len, n + 1);
    SquareLess(n, len + 1);
  }

  /** A non-zero number divided by its magnitude is its sign; zero divided
      by it is zero. */
  lemma SelfQuotient(k: int)
    requires k != 0
    ensures Quot(k, Abs(k)) == (if k > 0 then 1 else -1) && Quot(0, Abs(k)) == 0
  {
    assert Abs(k) / Abs(k) == 1 && 0 / Abs(k) == 0;
  }

  /** The float direction tables: the same entries as the integer ones, as
      `Vec2<float>`. */
  const Directions4Float: seq<Vec2> := [Vec2(1.0, 0.0), Vec2(0.0, -1.0), Vec2(-1.0, 0.0), Vec2(0.0, 1.0)]
  const Directions8Float: seq<Vec2> :=
    [Vec2(1.0, 0.0), Vec2(1.0, -1.0), Vec2(0.0, -1.0), Vec2(-1.0, -1.0),
     Vec2(-1.0, 0.0), Vec2(-1.0, 1.0), Vec2(0.0, 1.0), Vec2(1.0, 1.0)]

  /** Each float direction is its integer counterpart converted, so the
      8 float directions are distinct and the 4 axis ones are among them. */
  lemma FloatDirectionTables()
    ensures |Directions4Float| == 4 && |Directions8Float| == 8
    ensures forall i :: 0 <= i < 4 ==> Directions4Float[i] == Directions4Int[i].ToReal()
    ensures forall i :: 0 <= i < 8 ==> Directions8Float[i] == Directions8Int[i].ToReal()
    ensures forall i, j :: 0 <= i < j < 8 ==> Directions8Float[i] != Directions8Float[j]
    ensures forall i :: 0 <= i < 4 ==> Directions4Float[i] in Directions8Float
  {
  }

  /** The 8-direction table holds 8 distinct non-zero unit steps; the
      4-direction table is contained in it. */
  lemma DirectionTables()
    ensures |Directions8Int| == 8 && |Directions4Int| == 4
    ensures forall i, j :: 0 <= i < j < 8 ==> Directions8Int[i] != Directions8Int[j]
    ensures forall i :: 0 <= i < 8 ==> Directions8Int[i] != IVec2(0, 0)
    ensures forall i :: 0 <= i < 8 ==> -1 <= Directions8Int[i].x <= 1 && -1 <= Directions8Int[i].y <= 1
    ensures forall i :: 0 <= i < 4 ==> Directions4Int[i] in Directions8Int
  {
  }
}
