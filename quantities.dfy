/** The value side of Measure.py's `Measure`: a value in base units paired with its
    dimension, and the operators that build a new measure from old ones. Operators
    that raise in the source return an `Err` here. */
module Quantities {
  import opened Failures
  import opened Powers
  import opened Dimensions
  import opened UnitParser

  /** A measure's state: `value` in base units and its `dimension`. */
  datatype Quantity = Quantity(value: real, dimension: Dimension)

  // ---------------------------------------------------------------------------
  // Construction and reading back (`__init__`, `__getitem__`)
  // ---------------------------------------------------------------------------

  /** `Measure(value, unit)`: the value converted to base units, with the unit's dimension. */
  function FromUnit(t: UnitTable, v: real, unit: string): (r: Result<Quantity>)
    requires WellFormed(t)
    ensures r.Ok? <==> ReadUnit(t, unit).Ok?
    ensures r.Ok? ==> r.value.dimension == ReadUnit(t, unit).value.dimension
    ensures r.Ok? ==> r.value.value == ReadUnit(t, unit).value.multiplier * v
    ensures r.Err? ==> r.error == ReadUnit(t, unit).error
  {
    var f :- ReadUnit(t, unit);
    Ok(Quantity(f.multiplier * v, f.dimension))
  }

  /** `measure[unit]` as written: the value divided by the unit's multiplier, whatever
      the unit's dimension. */
  function ValueIn(x: Quantity, t: UnitTable, unit: string): (r: Result<real>)
    requires WellFormed(t)
    ensures r.Ok? <==> ReadUnit(t, unit).Ok?
    ensures r.Ok? ==> r.value * ReadUnit(t, unit).value.multiplier == x.value
  {
    var f :- ReadUnit(t, unit);
    Ok(x.value / f.multiplier)
  }

  /** `measure[unit]` with the dimension check a conversion needs: a unit of another
      dimension is a mismatch. */
  function ValueInChecked(x: Quantity, t: UnitTable, unit: string): (r: Result<real>)
    requires WellFormed(t)
    ensures r.Ok? <==> ReadUnit(t, unit).Ok? && ReadUnit(t, unit).value.dimension == x.dimension
    ensures r.Ok? ==> r.value * ReadUnit(t, unit).value.multiplier == x.value
    ensures ReadUnit(t, unit).Ok? && r.Err? ==> r.error == DimensionMismatch
  {
    var f :- ReadUnit(t, unit);
    if f.dimension != x.dimension then Err(DimensionMismatch) else Ok(x.value / f.multiplier)
  }

  /** Reading a measure in the unit it was built from gives back the number it was built with. */
  lemma ReadBackInSameUnit(t: UnitTable, v: real, unit: string)
    requires WellFormed(t) && FromUnit(t, v, unit).Ok?
    ensures ValueIn(FromUnit(t, v, unit).value, t, unit) == Ok(v)
    ensures ValueInChecked(FromUnit(t, v, unit).value, t, unit) == Ok(v)
  {
    var f := ReadUnit(t, unit).value;
    var q := FromUnit(t, v, unit).value;
    assert q.value == f.multiplier * v;
    CancelFactor(f.multiplier, v);
    assert ValueIn(q, t, unit) == Ok((f.multiplier * v) / f.multiplier);
    assert ValueInChecked(q, t, unit) == Ok((f.multiplier * v) / f.multiplier);
    assert (f.multiplier * v) / f.multiplier == v;
  }

  lemma CancelFactor(m: real, v: real)
    requires m != 0.0
    ensures (m * v) / m == v && (v * m) / m == v
  {
  }

  /** Where the dimensions agree, the checked and the unchecked readings coincide. */
  lemma CheckedAgrees(x: Quantity, t: UnitTable, unit: string)
    requires WellFormed(t) && ReadUnit(t, unit).Ok? && ReadUnit(t, unit).value.dimension == x.dimension
    ensures ValueInChecked(x, t, unit) == ValueIn(x, t, unit)
  {
  }

  // ---------------------------------------------------------------------------
  // Comparisons
  // ---------------------------------------------------------------------------

  /** `__eq__`: equal values and equal dimensions. */
  function Same(x: Quantity, y: Quantity): (r: bool)
    ensures r <==> x == y
  {
    x.value == y.value && x.dimension == y.dimension
  }

  /** `__ne__`. */
  function Differs(x: Quantity, y: Quantity): (r: bool)
    ensures r <==> x != y
  {
    !Same(x, y)
  }

  /** `__lt__`: raises on different dimensions, otherwise compares the values. */
  function Less(x: Quantity, y: Quantity): (r: Result<bool>)
    ensures r.Ok? <==> x.dimension == y.dimension
    ensures r.Ok? ==> (r.value <==> x.value < y.value)
    ensures r.Err? ==> r.error == DimensionMismatch
  {
    if x.dimension != y.dimension then Err(DimensionMismatch) else Ok(x.value < y.value)
  }

  /** `__le__`. */
  function AtMost(x: Quantity, y: Quantity): (r: Result<bool>)
    ensures r.Ok? <==> x.dimension == y.dimension
    ensures r.Ok? ==> (r.value <==> x.value <= y.value)
    ensures r.Err? ==> r.error == DimensionMismatch
  {
    if x.dimension != y.dimension then Err(DimensionMismatch) else Ok(x.value <= y.value)
  }

  /** `__ge__`. */
  function AtLeast(x: Quantity, y: Quantity): (r: Result<bool>)
    ensures r.Ok? <==> x.dimension == y.dimension
    ensures r.Ok? ==> (r.value <==> x.value >= y.value)
    ensures r.Err? ==> r.error == DimensionMismatch
  {
    if x.dimension != y.dimension then Err(DimensionMismatch) else Ok(x.value >= y.value)
  }

  /** `__gt__`. */
  function Greater(x: Quantity, y: Quantity): (r: Result<bool>)
    ensures r.Ok? <==> x.dimension == y.dimension
    ensures r.Ok? ==> (r.value <==> x.value > y.value)
    ensures r.Err? ==> r.error == DimensionMismatch
  {
    if x.dimension != y.dimension then Err(DimensionMismatch) else Ok(x.value > y.value)
  }

  /** The four orderings are each other's converses and complements. */
  lemma OrderingsAgree(x: Quantity, y: Quantity)
    ensures Less(x, y) == Greater(y, x)
    ensures AtMost(x, y) == AtLeast(y, x)
    ensures AtMost(x, y).Ok? ==> (AtMost(x, y).value <==> !Greater(x, y).value)
    ensures Less(x, y).Ok? ==> (Less(x, y).value <==> !AtLeast(x, y).value)
  {
  }

  /** Between measures of one dimension exactly one of `<`, `==`, `>` holds. */
  lemma Trichotomy(x: Quantity, y: Quantity)
    requires x.dimension == y.dimension
    ensures Less(x, y).Ok? && Greater(x, y).Ok?
    ensures Less(x, y).value || Same(x, y) || Greater(x, y).value
    ensures !(Less(x, y).value && Same(x, y)) && !(Same(x, y) && Greater(x, y).value)
    ensures !(Less(x, y).value && Greater(x, y).value)
  {
  }

  // ---------------------------------------------------------------------------
  // Sign (`__pos__`, `__neg__`, `__abs__`)
  // ---------------------------------------------------------------------------

  function Positive(x: Quantity): (r: Quantity)
    ensures r == x
  {
    Quantity(x.value, x.dimension)
  }

  function Negative(x: Quantity): (r: Quantity)
    ensures r.dimension == x.dimension && r.value + x.value == 0.0
  {
    Quantity(-x.value, x.dimension)
  }

  function Magnitude(x: Quantity): (r: Quantity)
    ensures r.dimension == x.dimension && r.value >= 0.0
    ensures r.value == x.value || r.value == -x.value
  {
    Quantity(if x.value < 0.0 then -x.value else x.value, x.dimension)
  }

  /** Negation is an involution, and the magnitude forgets the sign. */
  lemma SignLaws(x: Quantity)
    ensures Negative(Negative(x)) == x
    ensures Magnitude(Negative(x)) == Magnitude(x)
    ensures Magnitude(Magnitude(x)) == Magnitude(x)
  {
  }

  // ---------------------------------------------------------------------------
  // Sum and difference
  // ---------------------------------------------------------------------------

  /** `__add__`: the values add; the dimensions must be equal, as Dimension's `+` demands. */
  function Sum(x: Quantity, y: Quantity): (r: Result<Quantity>)
    ensures r.Ok? <==> x.dimension == y.dimension
    ensures r.Ok? ==> r.value.value == x.value + y.value && r.value.dimension == x.dimension
    ensures r.Err? ==> r.error == DimensionMismatch
  {
    var d :- Add(x.dimension, y.dimension);
    Ok(Quantity(x.value + y.value, d))
  }

  /** `__sub__`. */
  function Difference(x: Quantity, y: Quantity): (r: Result<Quantity>)
    ensures r.Ok? <==> x.dimension == y.dimension
    ensures r.Ok? ==> r.value.value == x.value - y.value && r.value.dimension == x.dimension
    ensures r.Err? ==> r.error == DimensionMismatch
  {
    var d :- Sub(x.dimension, y.dimension);
    Ok(Quantity(x.value - y.value, d))
  }

  /** Addition commutes, subtraction undoes it, and a measure minus itself is zero. */
  lemma SumLaws(x: Quantity, y: Quantity)
    requires x.dimension == y.dimension
    ensures Sum(x, y) == Sum(y, x)
    ensures Difference(Sum(x, y).value, y) == Ok(x)
    ensures Sum(Difference(x, y).value, y) == Ok(x)
    ensures Difference(x, x) == Ok(Quantity(0.0, x.dimension))
    ensures Sum(x, Negative(y)) == Difference(x, y)
  {
  }

  // ---------------------------------------------------------------------------
  // Product, quotient and power
  // ---------------------------------------------------------------------------

  /** `__mul__` of two measures: values multiply and exponents add. */
  function Product(x: Quantity, y: Quantity): (r: Quantity)
    ensures r.value == x.value * y.value
    ensures forall a :: Get(r.dimension, a) == Get(x.dimension, a) + Get(y.dimension, a)
  {
    Quantity(x.value * y.value, Mul(x.dimension, y.dimension))
  }

  /** `__mul__` by a number: the dimension is kept. */
  function ProductByScalar(x: Quantity, k: real): (r: Quantity)
    ensures r.dimension == x.dimension && r.value == x.value * k
  {
    Quantity(x.value * k, x.dimension)
  }

  /** `__rmul__` by a number, `k * measure`. */
  function ScalarProduct(k: real, x: Quantity): (r: Quantity)
    ensures r.dimension == x.dimension && r.value == k * x.value
  {
    Quantity(k * x.value, x.dimension)
  }

  /** `__truediv__` of two measures: exponents subtract; a zero divisor raises. */
  function Quotient(x: Quantity, y: Quantity): (r: Result<Quantity>)
    ensures r.Ok? <==> y.value != 0.0
    ensures r.Ok? ==> r.value.value * y.value == x.value
    ensures r.Ok? ==> forall a :: Get(r.value.dimension, a) == Get(x.dimension, a) - Get(y.dimension, a)
    ensures r.Err? ==> r.error == DivisionByZero
  {
    if y.value == 0.0 then Err(DivisionByZero)
    else Ok(Quantity(x.value / y.value, Div(x.dimension, y.dimension)))
  }

  /** `__truediv__` by a number. */
  function QuotientByScalar(x: Quantity, k: real): (r: Result<Quantity>)
    ensures r.Ok? <==> k != 0.0
    ensures r.Ok? ==> r.value.dimension == x.dimension && r.value.value * k == x.value
    ensures r.Err? ==> r.error == DivisionByZero
  {
    if k == 0.0 then Err(DivisionByZero) else Ok(Quantity(x.value / k, x.dimension))
  }

  /** `__rtruediv__` by a number, `k / measure`: the dimension is inverted. */
  function ScalarQuotient(k: real, x: Quantity): (r: Result<Quantity>)
    ensures r.Ok? <==> x.value != 0.0
    ensures r.Ok? ==> r.value.value * x.value == k
    ensures r.Ok? ==> forall a :: Get(r.value.dimension, a) == -Get(x.dimension, a)
    ensures r.Err? ==> r.error == DivisionByZero
  {
    PowAxes(x.dimension, -1);
    if x.value == 0.0 then Err(DivisionByZero) else Ok(Quantity(k / x.value, Pow(x.dimension, -1)))
  }

  /** `__pow__` with an integer exponent: zero to a negative power raises. */
  function Power(x: Quantity, p: int): (r: Result<Quantity>)
    ensures r.Ok? <==> x.value != 0.0 || p >= 0
    ensures r.Ok? ==> r.value.value == RealPow(x.value, p)
    ensures r.Ok? ==> forall a :: Get(r.value.dimension, a) == Get(x.dimension, a) * p
    ensures r.Err? ==> r.error == DivisionByZero
  {
    PowAxes(x.dimension, p);
    if x.value == 0.0 && p < 0 then Err(DivisionByZero)
    else Ok(Quantity(RealPow(x.value, p), Pow(x.dimension, p)))
  }

  /** Multiplying by a number on either side is the same, and commutes with the measure product. */
  lemma ProductLaws(x: Quantity, y: Quantity, k: real)
    ensures ScalarProduct(k, x) == ProductByScalar(x, k)
    ensures Product(x, y) == Product(y, x)
    ensures Product(ProductByScalar(x, k), y) == ProductByScalar(Product(x, y), k)
  {
    MulCommutes(x.dimension, y.dimension);
  }

  /** Dividing a product of measures by one factor gives back the other. */
  lemma QuotientUndoesProduct(x: Quantity, y: Quantity)
    requires y.value != 0.0
    ensures Quotient(Product(x, y), y) == Ok(x)
  {
    var p := Product(x, y);
    var d := Div(p.dimension, y.dimension);
    forall a ensures Get(d, a) == Get(x.dimension, a) {
    }
    EqualIffAllAxes(d, x.dimension);
    assert p.value == x.value * y.value;
    CancelFactor(y.value, x.value);
    assert Quotient(p, y) == Ok(Quantity((x.value * y.value) / y.value, d));
    assert Quantity((x.value * y.value) / y.value, d) == x;
  }

  /** Dividing by a number undoes multiplying by it. */
  lemma QuotientUndoesScaling(x: Quantity, k: real)
    requires k != 0.0
    ensures QuotientByScalar(ProductByScalar(x, k), k) == Ok(x)
  {
    var p := ProductByScalar(x, k);
    assert p.value == x.value * k;
    CancelFactor(k, x.value);
    assert QuotientByScalar(p, k) == Ok(Quantity((x.value * k) / k, x.dimension));
    assert Quantity((x.value * k) / k, x.dimension) == x;
  }

  /** A measure over itself is the dimensionless 1; `k / x` is `k` times `1 / x`. */
  lemma QuotientBySelf(x: Quantity, k: real)
    requires x.value != 0.0
    ensures Quotient(x, x) == Ok(Quantity(1.0, Zero))
    ensures ScalarQuotient(k, x).Ok? && ScalarQuotient(1.0, x).Ok?
    ensures ScalarQuotient(k, x).value == ScalarProduct(k, ScalarQuotient(1.0, x).value)
    ensures Product(x, ScalarQuotient(1.0, x).value) == Quantity(1.0, Zero)
  {
    DivIsMulByInverse(x.dimension, x.dimension);
    assert Mul(x.dimension, Pow(x.dimension, -1)) == Zero;
  }

  /** `x ** 0` is the dimensionless 1, `x ** 1` is `x`, and `x ** 2` is `x * x`. */
  lemma PowerLaws(x: Quantity)
    ensures Power(x, 0) == Ok(Quantity(1.0, Zero))
    ensures Power(x, 1) == Ok(x)
    ensures Power(x, 2) == Ok(Product(x, x))
  {
    PowZero(x.dimension);
    PowDistributes(x.dimension, x.dimension, 1, 1);
    assert Pow(x.dimension, 2) == Mul(x.dimension, x.dimension);
    assert RealPow(x.value, 2) == x.value * x.value by {
      assert NatPow(x.value, 2) == x.value * NatPow(x.value, 1);
      assert NatPow(x.value, 1) == x.value * NatPow(x.value, 0);
    }
    assert Power(x, 2) == Ok(Quantity(x.value * x.value, Mul(x.dimension, x.dimension)));
    assert Product(x, x) == Quantity(x.value * x.value, Mul(x.dimension, x.dimension));
  }
  /** For a non-zero measure, `x ** (p + q) == x ** p * x ** q` for all integer exponents. */
  lemma PowerAdds(x: Quantity, p: int, q: int)
    requires x.value != 0.0
    ensures Power(x, p).Ok? && Power(x, q).Ok?
    ensures Power(x, p + q) == Ok(Product(Power(x, p).value, Power(x, q).value))
  {
    var v, d := x.value, x.dimension;
    RealPowAdd(v, p, q);
    PowDistributes(d, d, p, q);
    var a, b := Quantity(RealPow(v, p), Pow(d, p)), Quantity(RealPow(v, q), Pow(d, q));
    assert Power(x, p) == Ok(a) && Power(x, q) == Ok(b);
    assert Product(a, b) == Quantity(RealPow(v, p + q), Pow(d, p + q));
  }

  /** For a non-zero measure, `x ** -p == 1 / x ** p` for every integer exponent. */
  lemma PowerNegates(x: Quantity, p: int)
    requires x.value != 0.0
    ensures Power(x, p).Ok? && Power(x, -p).Ok?
    ensures Power(x, -p) == ScalarQuotient(1.0, Power(x, p).value)
  {
    RealPowNegate(x.value, p);
    PowPow(x.dimension, p, -1);
    assert p * -1 == -p;
  }
}
