/** Measure.py's `Measure` as an object: the in-place operators overwrite its two
    fields, and each is specified by the pure operator on its state. */
module Measures {
  import opened Failures
  import opened Powers
  import opened Dimensions
  import opened UnitParser
  import opened Quantities

  class Measure {
    var value: real
    var dimension: Dimension

    /** The measure's fields as a value. */
    function State(): Quantity
      reads this
    {
      Quantity(value, dimension)
    }

    /** A measure holding the `(value, dimension)` pair `q`. */
    constructor (q: Quantity)
      ensures State() == q
    {
      value, dimension := q.value, q.dimension;
    }

    /** `Measure(value, unit)`: reads the unit string and stores the value in base units;
        fails where `readUnit` raises. */
    static method FromUnitString(t: UnitTable, v: real, unit: string) returns (r: Result<Measure>)
      requires WellFormed(t)
      ensures r.Ok? <==> FromUnit(t, v, unit).Ok?
      ensures r.Ok? ==> fresh(r.value) && r.value.State() == FromUnit(t, v, unit).value
      ensures r.Err? ==> r.error == FromUnit(t, v, unit).error
    {
      match FromUnit(t, v, unit)
      case Err(e) =>
        r := Err(e);
      case Ok(q) =>
        var m := new Measure(q);
        r := Ok(m);
    }

    /** `__iadd__`: the value is added first, then the dimension check raises on a
        mismatch, so a failed call leaves the sum behind in `value`. */
    method AddInPlace(other: Measure) returns (r: Outcome)
      modifies this
      ensures value == old(value) + old(other.value) && dimension == old(dimension)
      ensures r == if old(dimension) == old(other.dimension) then Pass else Fail(DimensionMismatch)
      ensures r.Pass? ==> Sum(old(State()), old(other.State())) == Ok(State())
    {
      value := value + other.value;
      match Add(dimension, other.dimension)
      case Ok(d) =>
        dimension := d;
        r := Pass;
      case Err(e) =>
        r := Fail(e);
    }

    /** `__isub__`, with the same order of update and check as `__iadd__`. */
    method SubInPlace(other: Measure) returns (r: Outcome)
      modifies this
      ensures value == old(value) - old(other.value) && dimension == old(dimension)
      ensures r == if old(dimension) == old(other.dimension) then Pass else Fail(DimensionMismatch)
      ensures r.Pass? ==> Difference(old(State()), old(other.State())) == Ok(State())
    {
      value := value - other.value;
      match Sub(dimension, other.dimension)
      case Ok(d) =>
        dimension := d;
        r := Pass;
      case Err(e) =>
        r := Fail(e);
    }

    /** `__imul__` by a measure. */
    method MulInPlace(other: Measure)
      modifies this
      ensures State() == Product(old(State()), old(other.State()))
    {
      value := value * other.value;
      dimension := Mul(dimension, other.dimension);
    }

    /** `__imul__` by a number: only the value changes. */
    method ScaleInPlace(k: real)
      modifies this
      ensures State() == ProductByScalar(old(State()), k)
    {
      value := value * k;
    }

    /** `__itruediv__` by a measure: a zero divisor raises before anything changes. */
    method DivInPlace(other: Measure) returns (r: Outcome)
      modifies this
      ensures r.Pass? <==> old(other.value) != 0.0
      ensures r.Pass? ==> Quotient(old(State()), old(other.State())) == Ok(State())
      ensures r.Fail? ==> r.error == DivisionByZero && State() == old(State())
    {
      if other.value == 0.0 {
        r := Fail(DivisionByZero);
      } else {
        value := value / other.value;
        dimension := Div(dimension, other.dimension);
        r := Pass;
      }
    }

    /** `__itruediv__` by a number. */
    method DivByScalarInPlace(k: real) returns (r: Outcome)
      modifies this
      ensures r.Pass? <==> k != 0.0
      ensures r.Pass? ==> QuotientByScalar(old(State()), k) == Ok(State())
      ensures r.Fail? ==> r.error == DivisionByZero && State() == old(State())
    {
      if k == 0.0 {
        r := Fail(DivisionByZero);
      } else {
        value := value / k;
        r := Pass;
      }
    }

    /** `__ipow__`: zero to a negative power raises before anything changes. */
    method PowInPlace(p: int) returns (r: Outcome)
      modifies this
      ensures r.Pass? <==> old(value) != 0.0 || p >= 0
      ensures r.Pass? ==> Power(old(State()), p) == Ok(State())
      ensures r.Fail? ==> r.error == DivisionByZero && State() == old(State())
    {
      if value == 0.0 && p < 0 {
        r := Fail(DivisionByZero);
      } else {
        value := RealPow(value, p);
        dimension := Pow(dimension, p);
        r := Pass;
      }
    }
  }

  /** Multiplying a measure in place by another and dividing it back restores it. */
  method MulThenDiv(m: Measure, n: Measure) returns (r: Outcome)
    requires m != n
    modifies m
    ensures r.Pass? <==> n.value != 0.0
    ensures r.Pass? ==> m.State() == old(m.State())
  {
    m.MulInPlace(n);
    r := m.DivInPlace(n);
    if r.Pass? {
      QuotientUndoesProduct(old(m.State()), n.State());
    }
  }
}
