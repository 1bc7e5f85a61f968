/** The dimension algebra of Unit.py: a vector of eight integer exponents, one per
    SI base quantity plus angle, with the operators Dimension defines and its
    canonical rendering as a unit string. */
module Dimensions {
  import opened Failures
  import opened Texts

  /** The eight axes, in the order Dimension's constructor declares them. */
  datatype Axis = Length | Mass | Time | Current | Temperature | AmountOfSubstance | LuminousIntensity | Angle

  const AllAxes: seq<Axis> := [Length, Mass, Time, Current, Temperature, AmountOfSubstance, LuminousIntensity, Angle]

  /** The attribute name of each axis, which the rendering sorts by. */
  function AxisName(a: Axis): string
  {
    match a
    case Length => "length"
    case Mass => "mass"
    case Time => "time"
    case Current => "current"
    case Temperature => "temperature"
    case AmountOfSubstance => "amountOfSubstance"
    case LuminousIntensity => "luminousIntensity"
    case Angle => "angle"
  }

  /** The position of AxisName(a) among the eight names in string order. */
  function NameRank(a: Axis): nat
  {
    match a
    case AmountOfSubstance => 0
    case Angle => 1
    case Current => 2
    case Length => 3
    case LuminousIntensity => 4
    case Mass => 5
    case Temperature => 6
    case Time => 7
  }

  /** `Dimension.baseUnits`: the symbol of the base unit of each axis. */
  function Symbol(a: Axis): string
  {
    match a
    case Length => "m"
    case Mass => "kg"
    case Time => "s"
    case Current => "A"
    case Temperature => "K"
    case AmountOfSubstance => "mol"
    case LuminousIntensity => "cd"
    case Angle => "rad"
  }

  datatype Dimension = Dimension(length: int, mass: int, time: int, current: int, temperature: int,
                                 amountOfSubstance: int, luminousIntensity: int, angle: int)

  /** `Dimension()`: every exponent zero. */
  const Zero := Dimension(0, 0, 0, 0, 0, 0, 0, 0)

  function Get(d: Dimension, a: Axis): int
  {
    match a
    case Length => d.length
    case Mass => d.mass
    case Time => d.time
    case Current => d.current
    case Temperature => d.temperature
    case AmountOfSubstance => d.amountOfSubstance
    case LuminousIntensity => d.luminousIntensity
    case Angle => d.angle
  }

  /** The dimension of the base unit of axis `a`, e.g. `Dimension(length=1)`. */
  function UnitOf(a: Axis): Dimension
  {
    match a
    case Length => Zero.(length := 1)
    case Mass => Zero.(mass := 1)
    case Time => Zero.(time := 1)
    case Current => Zero.(current := 1)
    case Temperature => Zero.(temperature := 1)
    case AmountOfSubstance => Zero.(amountOfSubstance := 1)
    case LuminousIntensity => Zero.(luminousIntensity := 1)
    case Angle => Zero.(angle := 1)
  }

  /** A base unit has exponent 1 on its own axis and 0 on every other. */
  lemma UnitOfAxes(a: Axis)
    ensures forall b :: Get(UnitOf(a), b) == if b == a then 1 else 0
  {
  }

  /** Two dimensions are equal exactly when all eight exponents agree (`__eq__`). */
  lemma EqualIffAllAxes(x: Dimension, y: Dimension)
    ensures x == y <==> forall a :: Get(x, a) == Get(y, a)
  {
    if forall a :: Get(x, a) == Get(y, a) {
      assert Get(x, Length) == Get(y, Length) && Get(x, Mass) == Get(y, Mass);
      assert Get(x, Time) == Get(y, Time) && Get(x, Current) == Get(y, Current);
      assert Get(x, Temperature) == Get(y, Temperature);
      assert Get(x, AmountOfSubstance) == Get(y, AmountOfSubstance);
      assert Get(x, LuminousIntensity) == Get(y, LuminousIntensity) && Get(x, Angle) == Get(y, Angle);
    }
  }

  /** `__mul__`: exponents add, axis by axis. */
  function Mul(x: Dimension, y: Dimension): (r: Dimension)
    ensures forall a :: Get(r, a) == Get(x, a) + Get(y, a)
  {
    Dimension(x.length + y.length, x.mass + y.mass, x.time + y.time, x.current + y.current,
              x.temperature + y.temperature, x.amountOfSubstance + y.amountOfSubstance,
              x.luminousIntensity + y.luminousIntensity, x.angle + y.angle)
  }

  /** `__truediv__`: exponents subtract, axis by axis. */
  function Div(x: Dimension, y: Dimension): (r: Dimension)
    ensures forall a :: Get(r, a) == Get(x, a) - Get(y, a)
  {
    Dimension(x.length - y.length, x.mass - y.mass, x.time - y.time, x.current - y.current,
              x.temperature - y.temperature, x.amountOfSubstance - y.amountOfSubstance,
              x.luminousIntensity - y.luminousIntensity, x.angle - y.angle)
  }

  /** `__pow__`: every exponent is scaled by `p`. */
  function Pow(x: Dimension, p: int): Dimension
  {
    Dimension(x.length * p, x.mass * p, x.time * p, x.current * p, x.temperature * p,
              x.amountOfSubstance * p, x.luminousIntensity * p, x.angle * p)
  }

  lemma PowAxes(x: Dimension, p: int)
    ensures forall a :: Get(Pow(x, p), a) == Get(x, a) * p
  {
  }

  /** `__add__`: a copy of the left operand when both operands are equal, a
      ValueError otherwise. */
  function Add(x: Dimension, y: Dimension): (r: Result<Dimension>)
    ensures r.Ok? <==> x == y
    ensures r.Ok? ==> r.value == x
    ensures r.Err? ==> r.error == DimensionMismatch
  {
    if x == y then Ok(x) else Err(DimensionMismatch)
  }

  /** `__sub__`: the same guard as `__add__`. */
  function Sub(x: Dimension, y: Dimension): (r: Result<Dimension>)
    ensures r.Ok? <==> x == y
    ensures r.Ok? ==> r.value == x
    ensures r.Err? ==> r.error == DimensionMismatch
  {
    if x == y then Ok(x) else Err(DimensionMismatch)
  }

  lemma MulCommutes(x: Dimension, y: Dimension)
    ensures Mul(x, y) == Mul(y, x)
  {
  }

  lemma MulAssociates(x: Dimension, y: Dimension, z: Dimension)
    ensures Mul(Mul(x, y), z) == Mul(x, Mul(y, z))
  {
  }

  lemma ZeroIsIdentity(x: Dimension)
    ensures Mul(x, Zero) == x && Mul(Zero, x) == x
  {
  }

  /** Dividing is multiplying by the inverse, and a dimension divided by itself is Zero. */
  lemma DivIsMulByInverse(x: Dimension, y: Dimension)
    ensures Div(x, y) == Mul(x, Pow(y, -1))
    ensures Div(x, x) == Zero
    ensures Mul(Div(x, y), y) == x
  {
  }

  lemma PowZero(x: Dimension)
    ensures Pow(x, 0) == Zero
    ensures Pow(x, 1) == x
  {
  }

  lemma PowPow(x: Dimension, p: int, q: int)
    ensures Pow(Pow(x, p), q) == Pow(x, p * q)
  {
  }

  lemma PowDistributes(x: Dimension, y: Dimension, p: int, q: int)
    ensures Pow(Mul(x, y), p) == Mul(Pow(x, p), Pow(y, p))
    ensures Pow(x, p + q) == Mul(Pow(x, p), Pow(x, q))
  {
    var l, r := Pow(x, p + q), Mul(Pow(x, p), Pow(x, q));
    forall a ensures Get(l, a) == Get(r, a) {
      assert Get(x, a) * (p + q) == Get(x, a) * p + Get(x, a) * q;
    }
    EqualIffAllAxes(l, r);
    var l', r' := Pow(Mul(x, y), p), Mul(Pow(x, p), Pow(y, p));
    forall a ensures Get(l', a) == Get(r', a) {
      assert (Get(x, a) + Get(y, a)) * p == Get(x, a) * p + Get(y, a) * p;
    }
    EqualIffAllAxes(l', r');
  }

  // ---------------------------------------------------------------------------
  // Rendering (`__str__`)
  // ---------------------------------------------------------------------------

  /** The sort key of `__str__`, `(exponent, axis name)`, as a total preorder. */
  predicate KeyLe(d: Dimension, a: Axis, b: Axis)
  {
    Get(d, a) < Get(d, b) || (Get(d, a) == Get(d, b) && NameRank(a) <= NameRank(b))
  }

  predicate SortedByKey(d: Dimension, s: seq<Axis>)
  {
    forall i, j :: 0 <= i < j < |s| ==> KeyLe(d, s[i], s[j])
  }

  lemma KeyLeTotal(d: Dimension, a: Axis, b: Axis)
    ensures KeyLe(d, a, b) || KeyLe(d, b, a)
  {
  }

  lemma KeyLeTransitive(d: Dimension, a: Axis, b: Axis, c: Axis)
    requires KeyLe(d, a, b) && KeyLe(d, b, c)
    ensures KeyLe(d, a, c)
  {
  }

  /** Whether `__str__` puts axis `a` among the positive (or the negative) keys. */
  predicate Keeps(d: Dimension, a: Axis, positive: bool)
  {
    if positive then Get(d, a) > 0 else Get(d, a) < 0
  }

  /** The axes of `axes` whose exponent in `d` is positive (or negative), in order. */
  function Filter(d: Dimension, axes: seq<Axis>, positive: bool): seq<Axis>
  {
    if axes == [] then []
    else if Keeps(d, axes[0], positive) then [axes[0]] + Filter(d, axes[1..], positive)
    else Filter(d, axes[1..], positive)
  }

  /** Filtering keeps every occurrence of a kept axis and drops the others. */
  lemma {:induction false} FilterCount(d: Dimension, axes: seq<Axis>, positive: bool, a: Axis)
    ensures multiset(Filter(d, axes, positive))[a] == if Keeps(d, a, positive) then multiset(axes)[a] else 0
  {
    if axes != [] {
      FilterCount(d, axes[1..], positive, a);
      assert axes == [axes[0]] + axes[1..];
    }
  }

  /** Insertion of `a` before the first key not below it. */
  function Insert(d: Dimension, a: Axis, s: seq<Axis>): seq<Axis>
  {
    if s == [] || KeyLe(d, a, s[0]) then [a] + s else [s[0]] + Insert(d, a, s[1..])
  }

  /** `sorted(keys, key=lambda k: (value, k))` as an insertion sort. */
  function Sort(d: Dimension, s: seq<Axis>): seq<Axis>
  {
    if s == [] then [] else Insert(d, s[0], Sort(d, s[1..]))
  }

  lemma {:induction false} InsertCount(d: Dimension, a: Axis, s: seq<Axis>)
    ensures multiset(Insert(d, a, s)) == multiset(s) + multiset{a}
  {
    if s != [] && !KeyLe(d, a, s[0]) {
      InsertCount(d, a, s[1..]);
      assert s == [s[0]] + s[1..];
    }
  }

  /** A key below `a` and below all of `s` is below all of the insertion. */
  lemma {:induction false} InsertLowerBound(d: Dimension, b: Axis, a: Axis, s: seq<Axis>)
    requires KeyLe(d, b, a)
    requires forall k :: 0 <= k < |s| ==> KeyLe(d, b, s[k])
    ensures forall k :: 0 <= k < |Insert(d, a, s)| ==> KeyLe(d, b, Insert(d, a, s)[k])
  {
    if s != [] && !KeyLe(d, a, s[0]) {
      InsertLowerBound(d, b, a, s[1..]);
    }
  }

  /** Inserting into a sorted sequence keeps it sorted. */
  lemma {:induction false} InsertSorted(d: Dimension, a: Axis, s: seq<Axis>)
    requires SortedByKey(d, s)
    ensures SortedByKey(d, Insert(d, a, s))
  {
    if s == [] {
    } else if KeyLe(d, a, s[0]) {
      var r := Insert(d, a, s);
      forall i, j | 0 <= i < j < |r| ensures KeyLe(d, r[i], r[j]) {
        if i == 0 {
          KeyLeTransitive(d, a, s[0], s[j - 1]);
        }
      }
    } else {
      KeyLeTotal(d, a, s[0]);
      var rest := Insert(d, a, s[1..]);
      InsertSorted(d, a, s[1..]);
      InsertLowerBound(d, s[0], a, s[1..]);
      assert forall k :: 0 <= k < |rest| ==> KeyLe(d, s[0], rest[k]);
      assert Insert(d, a, s) == [s[0]] + rest;
    }
  }

  /** Sorting yields a permutation of its input in key order. */
  lemma {:induction false} SortSorts(d: Dimension, s: seq<Axis>)
    ensures SortedByKey(d, Sort(d, s))
    ensures multiset(Sort(d, s)) == multiset(s)
  {
    if s != [] {
      SortSorts(d, s[1..]);
      InsertSorted(d, s[0], Sort(d, s[1..]));
      InsertCount(d, s[0], Sort(d, s[1..]));
      assert s == [s[0]] + s[1..];
    }
  }

  /** `topKeys` and `bottomKeys` of `__str__`. */
  function TopAxes(d: Dimension): seq<Axis> { Sort(d, Filter(d, AllAxes, true)) }
  function BottomAxes(d: Dimension): seq<Axis> { Sort(d, Filter(d, AllAxes, false)) }

  /** One rendered factor: the bare symbol for exponent 1, `sym^e` otherwise. */
  function AxisTerm(a: Axis, e: int): string
  {
    if e == 1 then Symbol(a) else Symbol(a) + "^" + IntToString(e)
  }

  /** The factors for `axes`, with exponents negated when `negate` holds. */
  function AxisTerms(d: Dimension, axes: seq<Axis>, negate: bool): (r: seq<string>)
    ensures |r| == |axes|
  {
    seq(|axes|, i requires 0 <= i < |axes| => AxisTerm(axes[i], if negate then -Get(d, axes[i]) else Get(d, axes[i])))
  }

  /** `__str__`: the canonical unit string of a dimension. */
  function Render(d: Dimension): (r: string)
  {
    var topKeys, bottomKeys := TopAxes(d), BottomAxes(d);
    var top, bottom := AxisTerms(d, topKeys, false), AxisTerms(d, bottomKeys, true);
    if topKeys == [] && bottomKeys == [] then ""
    else if bottomKeys == [] then Join(top, '*')
    else if topKeys == [] then "1/" + Join(bottom, '*')
    else Join(top, '*') + "/" + Join(bottom, '*')
  }

  /** The rank used as the second sort key orders the axes exactly as their names
      compare as strings. */
  lemma NameRankOrdersNames(a: Axis, b: Axis)
    ensures NameRank(a) < NameRank(b) <==> StrLess(AxisName(a), AxisName(b))
  {
    StrLessIrreflexive(AxisName(a));
    if a in {Length, Mass, Time, Current} {
      NameOrderFirstFour(a, b);
    } else {
      NameOrderLastFour(a, b);
    }
  }

  lemma NameOrderFirstFour(a: Axis, b: Axis)
    requires a in {Length, Mass, Time, Current}
    requires !StrLess(AxisName(a), AxisName(a))
    ensures NameRank(a) < NameRank(b) <==> StrLess(AxisName(a), AxisName(b))
  {
    match (a, b)
    case (Length, Length) =>
    case (Length, Mass) =>
    case (Length, Time) =>
    case (Length, Current) =>
    case (Length, Temperature) =>
    case (Length, AmountOfSubstance) =>
    case (Length, LuminousIntensity) =>
    case (Length, Angle) =>
    case (Mass, Length) =>
    case (Mass, Mass) =>
    case (Mass, Time) =>
    case (Mass, Current) =>
    case (Mass, Temperature) =>
    case (Mass, AmountOfSubstance) =>
    case (Mass, LuminousIntensity) =>
    case (Mass, Angle) =>
    case (Time, Length) =>
    case (Time, Mass) =>
    case (Time, Time) =>
    case (Time, Current) =>
    case (Time, Temperature) =>
    case (Time, AmountOfSubstance) =>
    case (Time, LuminousIntensity) =>
    case (Time, Angle) =>
    case (Current, Length) =>
    case (Current, Mass) =>
    case (Current, Time) =>
    case (Current, Current) =>
    case (Current, Temperature) =>
    case (Current, AmountOfSubstance) =>
    case (Current, LuminousIntensity) =>
    case (Current, Angle) =>
  }

  lemma NameOrderLastFour(a: Axis, b: Axis)
    requires a !in {Length, Mass, Time, Current}
    requires !StrLess(AxisName(a), AxisName(a))
    ensures NameRank(a) < NameRank(b) <==> StrLess(AxisName(a), AxisName(b))
  {
    match (a, b)
    case (Temperature, Length) =>
    case (Temperature, Mass) =>
    case (Temperature, Time) =>
    case (Temperature, Current) =>
    case (Temperature, Temperature) =>
    case (Temperature, AmountOfSubstance) =>
    case (Temperature, LuminousIntensity) =>
    case (Temperature, Angle) =>
    case (AmountOfSubstance, Length) =>
    case (AmountOfSubstance, Mass) =>
    case (AmountOfSubstance, Time) =>
    case (AmountOfSubstance, Current) =>
    case (AmountOfSubstance, Temperature) =>
    case (AmountOfSubstance, AmountOfSubstance) =>
    case (AmountOfSubstance, LuminousIntensity) =>
    case (AmountOfSubstance, Angle) =>
    case (LuminousIntensity, Length) =>
    case (LuminousIntensity, Mass) =>
    case (LuminousIntensity, Time) =>
    case (LuminousIntensity, Current) =>
    case (LuminousIntensity, Temperature) =>
    case (LuminousIntensity, AmountOfSubstance) =>
    case (LuminousIntensity, LuminousIntensity) =>
    case (LuminousIntensity, Angle) =>
    case (Angle, Length) =>
    case (Angle, Mass) =>
    case (Angle, Time) =>
    case (Angle, Current) =>
    case (Angle, Temperature) =>
    case (Angle, AmountOfSubstance) =>
    case (Angle, LuminousIntensity) =>
    case (Angle, Angle) =>
  }

  lemma {:induction false} StrLessIrreflexive(x: string)
    ensures !StrLess(x, x)
  {
    if |x| > 0 {
      StrLessIrreflexive(x[1..]);
    }
  }

  /** Each axis occurs exactly once in AllAxes. */
  lemma AllAxesOnce(a: Axis)
    ensures multiset(AllAxes)[a] == 1
  {
  }

  /** The numerator keys of `__str__` are the positive axes, each once, in key order;
      the denominator keys are the negative axes, likewise. */
  lemma RenderKeys(d: Dimension, a: Axis)
    ensures multiset(TopAxes(d))[a] == if Get(d, a) > 0 then 1 else 0
    ensures multiset(BottomAxes(d))[a] == if Get(d, a) < 0 then 1 else 0
    ensures SortedByKey(d, TopAxes(d)) && SortedByKey(d, BottomAxes(d))
  {
    AllAxesOnce(a);
    SortSorts(d, Filter(d, AllAxes, true));
    SortSorts(d, Filter(d, AllAxes, false));
    FilterCount(d, AllAxes, true, a);
    FilterCount(d, AllAxes, false, a);
  }

  lemma {:induction false} JoinNonEmpty(parts: seq<string>, sep: char)
    requires |parts| >= 1 && parts[0] != []
    ensures Join(parts, sep) != []
  {
  }

  /** No numerator keys exactly when no exponent is positive; likewise for the denominator. */
  lemma KeysEmpty(d: Dimension)
    ensures TopAxes(d) == [] <==> forall a :: Get(d, a) <= 0
    ensures BottomAxes(d) == [] <==> forall a :: Get(d, a) >= 0
  {
    var topKeys, bottomKeys := TopAxes(d), BottomAxes(d);
    if topKeys != [] {
      RenderKeys(d, topKeys[0]);
      assert topKeys[0] in multiset(topKeys);
    }
    if bottomKeys != [] {
      RenderKeys(d, bottomKeys[0]);
      assert bottomKeys[0] in multiset(bottomKeys);
    }
    forall a ensures (topKeys == [] ==> Get(d, a) <= 0) && (bottomKeys == [] ==> Get(d, a) >= 0) {
      RenderKeys(d, a);
    }
  }

  /** `__str__` gives the empty string exactly for the all-zero vector. */
  lemma RenderEmptyIffZero(d: Dimension)
    ensures Render(d) == "" <==> d == Zero
  {
    var topKeys, bottomKeys := TopAxes(d), BottomAxes(d);
    if topKeys == [] && bottomKeys == [] {
      NoKeysIsZero(d);
    } else {
      FirstKeysNonZero(d);
      if topKeys != [] {
        JoinNonEmpty(AxisTerms(d, topKeys, false), '*');
      }
    }
  }

  lemma NoKeysIsZero(d: Dimension)
    requires TopAxes(d) == [] && BottomAxes(d) == []
    ensures d == Zero
  {
    KeysEmpty(d);
    forall a ensures Get(d, a) == Get(Zero, a) {
    }
    EqualIffAllAxes(d, Zero);
  }

  /** The first numerator key has a positive exponent and the first denominator key a negative one. */
  lemma FirstKeysNonZero(d: Dimension)
    ensures TopAxes(d) != [] ==> Get(d, TopAxes(d)[0]) > 0
    ensures BottomAxes(d) != [] ==> Get(d, BottomAxes(d)[0]) < 0
  {
    var topKeys, bottomKeys := TopAxes(d), BottomAxes(d);
    if topKeys != [] {
      RenderKeys(d, topKeys[0]);
      assert topKeys[0] in multiset(topKeys);
    }
    if bottomKeys != [] {
      RenderKeys(d, bottomKeys[0]);
      assert bottomKeys[0] in multiset(bottomKeys);
    }
  }

  /** The dimension of the newton, `kg*m/s^2`. */
  const NewtonDimension := Zero.(length := 1, mass := 1, time := -2)

  lemma NewtonTopKeys()
    ensures TopAxes(NewtonDimension) == [Length, Mass]
  {
    var d := NewtonDimension;
    assert Filter(d, AllAxes, true) == [Length, Mass];
    assert Sort(d, [Mass]) == [Mass];
    assert Sort(d, [Length, Mass]) == Insert(d, Length, [Mass]) == [Length, Mass];
  }

  lemma NewtonBottomKeys()
    ensures BottomAxes(NewtonDimension) == [Time]
  {
    var d := NewtonDimension;
    assert Filter(d, AllAxes, false) == [Time];
    assert Sort(d, [Time]) == [Time];
  }

  lemma RenderNewton()
    ensures Render(NewtonDimension) == "m*kg/s^2"
  {
    var d := NewtonDimension;
    NewtonTopKeys();
    NewtonBottomKeys();
    assert AxisTerms(d, [Length, Mass], false) == ["m", "kg"];
    assert IntToString(2) == "2";
    assert AxisTerm(Time, 2) == "s^2";
    assert AxisTerms(d, [Time], true) == ["s^2"];
  }
}
