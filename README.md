# pyUnits in Dafny

A model of the core of pyUnits, a small Python library of physical measures:

- `Unit.py`'s `Dimension` is a vector of eight integer exponents: length, mass, time, current, temperature, amount of substance, luminous intensity and angle. It has:
  - the operators `*`, `/` and `**`;
  - `+` and `-`, which demand equal operands;
  - equality;
  - the canonical unit string `str(d)`, such as `m*kg/s^2`.
- `Measure.py`'s unit reader turns a unit string such as `kg*m/s^2`, `1/s` or `m²` into a multiplier to base units and a `Dimension`. It uses four pieces:
  - `readUnit`;
  - `readDimensionTerm`;
  - `getUnitMultiplierAndDimension`, which follows reference entries of `unitInformation` such as `"km": (1e3, "m")`;
  - `unitPowerReplacements`.
- `Measure.py`'s `Measure` holds a value in base units and a dimension. It has:
  - comparisons that raise on different dimensions;
  - sign operators;
  - `+ - * / **`, with their in-place forms;
  - `measure[unit]`.

The files, in dependency order:

| file | module | contents |
|---|---|---|
| `failures.dfy` | `Failures` | the library's exceptions as an `Error` datatype; `Result`, `Option` and `Outcome` |
| `texts.dfy` | `Texts` | `str.split` and `str.join`, `lstrip`, integer printing and parsing |
| `powers.dfy` | `Powers` | `**` on numbers with an integer exponent |
| `dimensions.dfy` | `Dimensions` | `Dimension`, its operators and laws, and `__str__` with its sorted keys |
| `parser.dfy` | `UnitParser` | `readDimensionTerm`, `readUnit`, `getUnitMultiplierAndDimension`, the unit table |
| `resolution_laws.dfy` | `ResolutionLaws` | how `readUnit` composes over `*`, `/`, `1/` and reference entries |
| `sample_units.dfy` | `SampleUnits` | a sample of `unitInformation` and the proof that it is well formed |
| `sample_resolutions.dfy` | `SampleResolutions` | what the sample's symbols and some unit strings resolve to |
| `roundtrip.dfy` | `RoundTrip` | `readUnit(str(d))` gives back `d` |
| `quantities.dfy` | `Quantities` | the non-mutating operators of `Measure`, on values |
| `measure.dfy` | `Measures` | `class Measure` with the in-place operators |
| `measure_examples.dfy` | `MeasureExamples` | worked conversions and the `measure[unit]` discrepancy |

### How the model is built

Python's exceptions become `Err` values of a `Result`:

| Python failure | `Error` constructor |
|---|---|
| `re.match(...).group` on `None` | `MalformedTerm` |
| `float` on a bad exponent, or a `KeyError` in `unitPowerReplacements` | `BadExponent` |
| a `KeyError` in `unitInformation` | `UnknownUnit` |
| `ValueError` from dimension `+`, `-` or a comparison | `DimensionMismatch` |
| `ZeroDivisionError` | `DivisionByZero` |

The unit table is a parameter of `ReadUnit`:

- It is a map from symbol to `Base(multiplier, dimension)` or `Derived(multiplier, reference)`.
- Each symbol also has a rank.
- `WellFormed` states that a derived entry only refers to symbols of lower rank, and that every multiplier is positive. This is the "no reference loops" rule written above `unitInformation`, and it is what makes the mutual recursion of `readUnit` and `getUnitMultiplierAndDimension` terminate.

The class `Measure` in `measure.dfy` holds the two fields that `__iadd__`, `__isub__`, `__imul__`, `__itruediv__` and `__ipow__` overwrite:

- Each in-place method states its new state through `old(...)`, in terms of the pure operator of `quantities.dfy`.
- The laws proved about those operators therefore carry over to the methods.

Python's `isinstance` dispatch in `*`, `/` and their variants becomes two members: measure by measure, and measure by number.

## Model

| member | source | states |
|---|---|---|
| Dimensions.UnitOfAxes | Unit.py:3-13 | the base dimension of an axis has exponent 1 on that axis and 0 on every other |
| Dimensions.EqualIffAllAxes | Unit.py:15-16 | two dimensions are equal exactly when all eight exponents agree |
| Dimensions.Mul | Unit.py:24-26 | the product's exponent on every axis is the sum of the operands' exponents |
| Dimensions.Div | Unit.py:28-30 | the quotient's exponent on every axis is the difference of the operands' exponents |
| Dimensions.PowAxes | Unit.py:32-33 | `d ** p` scales every exponent by `p` |
| Dimensions.Add | Unit.py:18-19 | `+` succeeds exactly on equal dimensions and returns a copy of the left one; otherwise it raises a mismatch |
| Dimensions.Sub | Unit.py:21-22 | `-` has the same guard and result as `+` |
| Dimensions.MulCommutes | Unit.py:24-26 | the product of dimensions commutes |
| Dimensions.MulAssociates | Unit.py:24-26 | the product of dimensions associates |
| Dimensions.ZeroIsIdentity | Unit.py:5-13 | `Dimension()` is neutral for the product |
| Dimensions.DivIsMulByInverse | Unit.py:28-33 | `x / y == x * y**-1`, `x / x` is zero, and `(x / y) * y == x` |
| Dimensions.PowZero | Unit.py:32-33 | `d ** 0` is zero and `d ** 1` is `d` |
| Dimensions.PowPow | Unit.py:32-33 | `(d ** p) ** q == d ** (p*q)` |
| Dimensions.PowDistributes | Unit.py:24-33 | the power distributes over the product, and `d ** (p+q) == d**p * d**q` |
| Dimensions.KeyLeTotal | Unit.py:40-41 | the sort key `(exponent, name)` orders any two axes |
| Dimensions.KeyLeTransitive | Unit.py:40-41 | the sort key is transitive |
| Dimensions.FilterCount | Unit.py:40-41 | the key filter keeps every positive (or negative) axis and drops the rest |
| Dimensions.InsertCount | Unit.py:40-41 | inserting a key adds exactly that key |
| Dimensions.InsertLowerBound | Unit.py:40-41 | a key below the inserted one and all others stays below the result |
| Dimensions.InsertSorted | Unit.py:40-41 | inserting into a key-sorted sequence keeps it sorted |
| Dimensions.SortSorts | Unit.py:40-41 | `sorted` yields a permutation of its input in key order |
| Dimensions.NameRankOrdersNames | Unit.py:40-41 | the numeric rank of an axis orders the axes exactly as their attribute names compare as strings |
| Dimensions.NameOrderFirstFour | Unit.py:40-41 | the name order for length, mass, time and current |
| Dimensions.NameOrderLastFour | Unit.py:40-41 | the name order for the other four axes |
| Dimensions.StrLessIrreflexive | Unit.py:40-41 | no name sorts before itself |
| Dimensions.AllAxesOnce | Unit.py:5-13 | each axis occurs once among the eight attributes |
| Dimensions.RenderKeys | Unit.py:40-41 | `topKeys` holds each positive axis once and `bottomKeys` each negative axis once, both in key order |
| Dimensions.KeysEmpty | Unit.py:40-44 | `topKeys` is empty exactly when no exponent is positive, and likewise for `bottomKeys` |
| Dimensions.RenderEmptyIffZero | Unit.py:39-51 | `str(d)` is the empty string exactly for the all-zero dimension |
| Dimensions.RenderNewton | Unit.py:39-51 | `str` of length 1, mass 1, time -2 is `m*kg/s^2` |
| Texts.JoinSplit | Measure.py:142 | `split` yields pieces without the separator, and joining them gives back the string |
| Texts.SplitJoin | Unit.py:47 | splitting a join of separator-free pieces gives back the pieces |
| Texts.SplitAfter | Measure.py:142 | splitting `a + sep + b` with `a` separator-free gives `a` and then the pieces of `b` |
| Texts.SplitConcat | Measure.py:142 | the pieces of `a + sep + b` are those of `a` followed by those of `b` |
| Texts.JoinFree | Unit.py:47 | a character absent from the pieces and different from the separator is absent from the join |
| Texts.StripLeading | Measure.py:174 | `lstrip("^")` removes exactly the leading run of `^` |
| Texts.NatToString | Unit.py:42-43 | `str(n)` is a non-empty digit string whose value is `n`, with no leading zero |
| Texts.CanonicalDigits | Unit.py:42-43 | every digit string without a leading zero is `str` of its own value, so `str(n)` is the only such string for `n` |
| Texts.ParseInt | Measure.py:174 | the exponent parses exactly when it is digits with an optional sign; the value is the digits' value, negated after `-` |
| Texts.LeadingZero | Measure.py:174 | a leading zero does not change the value of a run of digits |
| Texts.ParseIntPadded | Measure.py:174 | `+k`, `0k` and `k` read as the same number |
| Texts.IntToStringParses | Measure.py:174 | parsing the printed exponent gives it back |
| Texts.IntToStringChars | Unit.py:42-43 | a printed exponent holds only digits and `-` |
| Powers.NatPowOne | Measure.py:156 | `1 ** n == 1` |
| Powers.RealPowSign | Measure.py:156 | `m ** p` of a non-zero multiplier is non-zero, and positive when `m` is |
| Powers.RealPowNegate | Measure.py:156 | `m ** -p == 1 / m ** p` |
| Powers.NatPowAdd | Measure.py:156 | `m ** (a + b) == m ** a * m ** b` for natural exponents |
| Powers.RealPowAdd | Measure.py:156 | `m ** (p + q) == m ** p * m ** q` for all integer exponents of a non-zero `m` |
| UnitParser.SymbolLengthIsMaximal | Measure.py:168 | the symbol read is the longest leading run of characters of `[a-zA-Zα-ωΑ-Ω]\|°\|Å` |
| UnitParser.SymbolLengthOf | Measure.py:168-169 | a run of symbol characters followed by a non-symbol character is read whole |
| UnitParser.UnsuperscriptSuperscript | Measure.py:199 | `unitPowerReplacements` maps superscript digits back to the digits they show |
| UnitParser.UnsuperscriptFails | Measure.py:176 | a character outside `unitPowerReplacements` makes the term's exponent fail |
| UnitParser.ReadDimensionTerm | Measure.py:161-178 | a term fails only as a malformed term or with a bad exponent |
| UnitParser.ReadDimensionTermSplits | Measure.py:168-169 | the symbol is the term's maximal leading run of symbol characters; the term is malformed exactly when it does not start with one |
| UnitParser.BareSymbolTerm | Measure.py:171-172 | a bare symbol is that symbol to the power 1 |
| UnitParser.CaretTerm | Measure.py:173-174 | `sym^k` is `sym` to the power `k` |
| UnitParser.SuperscriptTerm | Measure.py:175-176 | `sym` followed by superscript digits reads as `sym^digits` |
| UnitParser.StrayCharacterFails | Measure.py:175-176 | any other character after the symbol is a bad exponent |
| UnitParser.ReadTerms | Measure.py:151-152 | reading the terms gives one result per term, and fails only as a single term can |
| UnitParser.NegatedAt | Measure.py:153 | the denominator's terms keep their symbols with negated powers |
| UnitParser.UnitTerms | Measure.py:142-153 | splitting a unit string into terms fails only as a single term can |
| UnitParser.GetUnitMultiplierAndDimension | Measure.py:180-193 | a symbol resolves to a positive multiplier; an absent symbol is unknown, and nothing else can fail there |
| UnitParser.FoldTerms | Measure.py:155-158 | the fold of the raised terms has a positive multiplier and fails only on a malformed term, bad exponent or unknown symbol |
| UnitParser.ReadUnit | Measure.py:134-159 | `readUnit` gives a positive multiplier, and fails only on a malformed term, bad exponent or unknown symbol |
| ResolutionLaws.CombineIdentity | Measure.py:158 | the identity seed is neutral for the reduce step |
| ResolutionLaws.CombineAssociates | Measure.py:158 | the reduce step associates |
| ResolutionLaws.InvertCombine | Measure.py:153-158 | the reciprocal of a product is the product of the reciprocals |
| ResolutionLaws.InvertRaise | Measure.py:153-156 | raising to `-p` is the reciprocal of raising to `p` |
| ResolutionLaws.NegatedStep | Measure.py:153-158 | one reduce step commutes with taking reciprocals |
| ResolutionLaws.FoldAnyBound | Measure.py:155-158 | the fold does not depend on the termination bound used |
| ResolutionLaws.ReadUnitAnyBound | Measure.py:134-159 | `readUnit` does not depend on the termination bound used |
| ResolutionLaws.DerivedEntry | Measure.py:187-191 | a reference entry `(m, ref)` resolves to `readUnit(ref)` with its multiplier scaled by `m` |
| ResolutionLaws.BaseEntry | Measure.py:187-193 | a base entry `(m, d)` resolves to itself |
| ResolutionLaws.FoldAppend | Measure.py:158 | folding a concatenation of terms combines the two folds |
| ResolutionLaws.FoldNegated | Measure.py:153-158 | folding negated terms gives the reciprocal of the fold |
| ResolutionLaws.ReadTermsAt | Measure.py:151-152 | the terms read succeed exactly when every term reads, and each is that term's reading |
| ResolutionLaws.ReadTermsAppend | Measure.py:151-153 | reading concatenated term lists concatenates the readings |
| ResolutionLaws.UnitTermsOfProduct | Measure.py:142-148 | without `/` or a leading `1`, the terms are those of the `*`-pieces |
| ResolutionLaws.UnitTermsOfTerm | Measure.py:142-153 | a one-term unit string is that one term |
| ResolutionLaws.ReadUnitTerm | Measure.py:134-159 | `readUnit` of one term `sym^p` is the symbol's entry raised to `p` |
| ResolutionLaws.ReadUnitSymbol | Measure.py:134-159 | `readUnit` of a bare symbol is its table entry |
| ResolutionLaws.UnitTermsReciprocal | Measure.py:142-149 | `1/u` reads as the terms of `u` with their powers negated |
| ResolutionLaws.ReadUnitReciprocal | Measure.py:142-159 | `readUnit("1/" + u)` is the reciprocal of `readUnit(u)` |
| ResolutionLaws.ReadUnitExtraSlash | Measure.py:142-149 | with more than one `/`, everything after the first is ignored: `readUnit("a/b/c") == readUnit("a")` |
| ResolutionLaws.ReadUnitProduct | Measure.py:134-159 | `readUnit("a*b")` succeeds exactly when both sides do, and is their product |
| ResolutionLaws.UnitTermsQuotient | Measure.py:142-153 | `a/b` reads as the terms of `a` followed by those of `b` negated |
| ResolutionLaws.ReadUnitQuotient | Measure.py:134-159 | `readUnit("a/b")` succeeds exactly when both sides do, and is `a`'s factor times the reciprocal of `b`'s |
| SampleUnits.SampleWellFormed | Measure.py:201-413 | the sample of `unitInformation` has no reference cycle and only positive multipliers |
| SampleUnits.NewtonTerms | Measure.py:437 | `kg*m/s^2` reads as `kg^1`, `m^1`, `s^-2` |
| SampleResolutions.BaseUnits | Measure.py:206-208 | `m`, `kg` and `s` resolve to multiplier 1 and their own axis |
| SampleResolutions.Kilometre | Measure.py:223 | `km` is 1000 metres |
| SampleResolutions.Centimetre | Measure.py:227 | `cm` is 0.01 metres |
| SampleResolutions.Minute | Measure.py:297 | `min` is 60 seconds |
| SampleResolutions.Hour | Measure.py:298 | `hr` is 3600 seconds, through `min` |
| SampleResolutions.DayResolves | Measure.py:299 | `day` is 86400 seconds, through two reference levels |
| SampleResolutions.HertzResolves | Measure.py:413 | `Hz` is `s^-1` with multiplier 1 |
| SampleResolutions.NewtonResolves | Measure.py:437 | `N` is `kg*m/s^2` with multiplier 1 |
| SampleResolutions.KilometresPerHour | Measure.py:134-159 | `km/hr` is 5/18 of a metre per second |
| SampleResolutions.MetresPerSecond | Measure.py:134-159 | `m/s` is length over time with multiplier 1 |
| SampleResolutions.SquareMetre | Measure.py:173-176 | `m²` and `m^2` read the same, as length squared |
| SampleResolutions.UnknownSymbol | Measure.py:187 | a symbol missing from the table is an unknown unit |
| RoundTrip.AxisTermReads | Measure.py:161-178 | each factor `str` writes reads back as its symbol and exponent |
| RoundTrip.ReadAxisTerms | Measure.py:151-152 | the factors `str` writes read back term by term |
| RoundTrip.RenderTerms | Measure.py:142-153 | `readUnit` finds in `str(d)` exactly the axes of `d` with their exponents |
| RoundTrip.PartAxes | Measure.py:155-158 | the product of the axis powers has each exponent of `d` once per occurrence of its axis |
| RoundTrip.FoldBaseTerms | Measure.py:155-158 | over a table holding `baseUnits`, the fold of those terms has multiplier 1 |
| RoundTrip.KeysRebuild | Unit.py:40-41 | the positive and the negative keys together rebuild `d` |
| RoundTrip.RenderReadsBack | Unit.py:39-51 | `readUnit(str(d)) == (1, d)` for every non-zero dimension `d` |
| RoundTrip.ZeroDoesNotReadBack | Unit.py:44-45 | the zero dimension renders as `""`, which `readUnit` rejects as a malformed term |
| Quantities.FromUnit | Measure.py:6-13 | `Measure(v, unit)` holds `m * v` and the unit's dimension; it fails exactly where `readUnit` does |
| Quantities.ValueIn | Measure.py:130-132 | `measure[unit]` times the unit's multiplier is the stored value, with no dimension check |
| Quantities.ValueInChecked | Measure.py:130-132 | the corrected `measure[unit]`: a mismatch exactly when the unit's dimension differs |
| Quantities.ReadBackInSameUnit | Measure.py:130-132 | `Measure(v, unit)[unit] == v` |
| Quantities.CheckedAgrees | Measure.py:130-132 | where the dimensions agree, the corrected reading is the original one |
| Quantities.Same | Measure.py:15-16 | `==` holds exactly for equal value and equal dimension |
| Quantities.Differs | Measure.py:18-19 | `!=` is the negation of `==` |
| Quantities.Less | Measure.py:21-24 | `<` raises exactly on different dimensions, otherwise compares values |
| Quantities.AtMost | Measure.py:26-29 | `<=` raises exactly on different dimensions, otherwise compares values |
| Quantities.AtLeast | Measure.py:31-34 | `>=` raises exactly on different dimensions, otherwise compares values |
| Quantities.Greater | Measure.py:36-39 | `>` raises exactly on different dimensions, otherwise compares values |
| Quantities.OrderingsAgree | Measure.py:21-39 | `<` is `>` reversed, `<=` is `>=` reversed, and each is the other's complement |
| Quantities.Trichotomy | Measure.py:15-39 | between measures of one dimension exactly one of `<`, `==`, `>` holds |
| Quantities.Positive | Measure.py:41-42 | unary `+` is the identity |
| Quantities.Negative | Measure.py:44-45 | unary `-` keeps the dimension and negates the value |
| Quantities.Magnitude | Measure.py:47-48 | `abs` keeps the dimension and gives a non-negative value of the same size |
| Quantities.SignLaws | Measure.py:41-48 | negation is an involution and `abs` forgets the sign |
| Quantities.Sum | Measure.py:50-51 | `+` raises exactly on different dimensions, otherwise adds the values |
| Quantities.Difference | Measure.py:57-58 | `-` raises exactly on different dimensions, otherwise subtracts the values |
| Quantities.SumLaws | Measure.py:50-58 | `+` commutes, `-` undoes `+`, `x - x` is zero, and `x + (-y) == x - y` |
| Quantities.Product | Measure.py:64-66 | values multiply and exponents add |
| Quantities.ProductByScalar | Measure.py:67-68 | a number scales the value and keeps the dimension |
| Quantities.ScalarProduct | Measure.py:73-74 | `k * measure` scales the value and keeps the dimension |
| Quantities.ProductLaws | Measure.py:64-74 | `k * x == x * k`, the product commutes, and scaling commutes with it |
| Quantities.Quotient | Measure.py:84-85 | a zero divisor raises; otherwise the quotient times the divisor is the dividend, and exponents subtract |
| Quantities.QuotientByScalar | Measure.py:86-87 | dividing by zero raises; otherwise the dimension is kept and the value is divided |
| Quantities.ScalarQuotient | Measure.py:92-93 | `k / measure` raises on a zero value; otherwise every exponent is negated |
| Quantities.Power | Measure.py:102-103 | zero to a negative power raises; otherwise the value is `value ** p` and exponents scale by the power |
| Quantities.QuotientUndoesProduct | Measure.py:64-85 | `(x * y) / y == x` for non-zero `y` |
| Quantities.QuotientUndoesScaling | Measure.py:67-87 | `(x * k) / k == x` for non-zero `k` |
| Quantities.QuotientBySelf | Measure.py:84-93 | `x / x` is the dimensionless 1, and `k / x == k * (1 / x)` |
| Quantities.PowerLaws | Measure.py:102-103 | `x ** 0` is the dimensionless 1, `x ** 1 == x`, and `x ** 2 == x * x` |
| Quantities.PowerAdds | Measure.py:102-103 | for a non-zero measure, `x ** (p + q) == x ** p * x ** q` for all integer exponents |
| Quantities.PowerNegates | Measure.py:102-103 | for a non-zero measure, `x ** -p == 1 / x ** p` for every integer exponent |
| Measures.Measure.constructor | Measure.py:6-13 | a measure holds the given value and dimension |
| Measures.Measure.FromUnitString | Measure.py:6-13 | `Measure(v, unit)` is a fresh object holding `FromUnit(v, unit)`, or the error of `readUnit` |
| Measures.Measure.AddInPlace | Measure.py:53-55 | `+=` adds the value first; it succeeds exactly on equal dimensions, giving the state of `x + y` |
| Measures.Measure.SubInPlace | Measure.py:60-62 | `-=` subtracts the value first; it succeeds exactly on equal dimensions, giving the state of `x - y` |
| Measures.Measure.MulInPlace | Measure.py:76-79 | `*=` by a measure leaves the state of `x * y`, also when `y` is `x` itself |
| Measures.Measure.ScaleInPlace | Measure.py:80-81 | `*=` by a number leaves the state of `x * k` |
| Measures.Measure.DivInPlace | Measure.py:95-98 | `/=` by a measure leaves the state of `x / y`; a zero divisor raises and changes nothing |
| Measures.Measure.DivByScalarInPlace | Measure.py:99-100 | `/=` by a number leaves the state of `x / k`; zero raises and changes nothing |
| Measures.Measure.PowInPlace | Measure.py:105-107 | `**=` leaves the state of `x ** p`; zero to a negative power raises and changes nothing |
| Measures.MulThenDiv | Measure.py:76-98 | `x *= y; x /= y` restores `x` exactly when `y` is non-zero |
| MeasureExamples.MetrePlusCentimetres | Measure.py:50-51 | `Measure(1, 'm') + Measure(100, 'cm') == Measure(2, 'm')` |
| MeasureExamples.SpeedInMetresPerSecond | Measure.py:130-132 | `Measure(36, 'km/hr')` holds 10 m/s, and reads as 10 in `m/s` |
| MeasureExamples.MetreReadInSeconds | Measure.py:130-132 | `Measure(1, 'm')['s']` reads as 1 as written, and is a dimension mismatch when checked |
| MeasureExamples.AddCentimetresInPlace | Measure.py:53-55 | `m = Measure(1, 'm'); m += Measure(100, 'cm')` succeeds and leaves two metres |

## Left out

- `unitInformation`: only a sample is modelled. It holds the eight base units and `km`, `cm`, `g`, `min`, `hr`, `day`, `Hz` and `N`. `ReadUnit` takes any table, and its laws hold for every well-formed one.
- The missing comma after the `qt` entry (Measure.py:410): as written, the table literal does not parse. The model assumes the comma is there.
- The table's "no reference loops" comment: the model replaces it with the rank that `WellFormed` demands. A table with a cycle, on which Python recurses without end, is outside the model.
- Zero or negative multipliers in the table: `WellFormed` excludes them. Every entry of the real table is positive.
- `UnitParser.FoldTerms`: it seeds `reduce` with `(1, Dimension())`. Python's `reduce` without a seed raises `TypeError` on an empty term list, such as for `"1"` or `"1m"`, where the model returns the identity factor.
- `UnitParser.ReadDimensionTerm`: it reads integer exponents only: digits, with an optional sign after `^`, or superscript digits. Python's `float(...)` also accepts other spellings, among them decimals, exponent notation, surrounding whitespace, underscores between digits (`m^1_0` is 10.0), non-ASCII decimal digits (`m^２`), `inf` and `nan`; the list is not exhaustive, and the model rejects all of them. Powers and exponents are therefore `int` and never floats.
- The top-side test `top == ["1"]` (Measure.py:144): it compares a string with a list and is never true. It has no effect and is not modelled; the leading-`1` test at Measure.py:148 is.
- Floating point: values and multipliers are exact reals. Rounding in `*`, `/` and `**` is not modelled, so `Measure(36, 'km/hr')` holds exactly 10 here.
- `Dimensions.Render`: exponents are printed as integers (`m^2`). When any term of a unit string carries a written power (`^k` or superscript digits), `readUnit` turns that power into a float, and the dimension it builds prints `m^2.0`. A bare symbol keeps the integer power 1, so `readUnit("m*m")` holds the integer 2 and prints `m^2`, as modelled.
- `Measure.__str__` and `__repr__`, and `Dimension.__repr__`: printing only.
- `Measure.__int__`, `__float__`, `__round__`, `__trunc__` and `__ceil__`: they call functions that are not imported or do not accept those arguments, and they depend on float rounding.
- The non-mutating operators: they build `Measure(value, dimension)`, which at runtime would pass a `Dimension` to `readUnit`. The model builds the `(value, dimension)` pair the code evidently means.
- The in-place operators return `None`, so `m += x` rebinds `m` to `None` in Python. The model keeps the updated object and does not model the rebinding.
- `__rmul__` and `__rtruediv__` with a measure on the left: Python never calls them, because `__mul__` and `__truediv__` of the left measure answer first. Only the number-on-the-left forms are modelled.
- `1/self.dimension` (Measure.py:93): it has no `__rtruediv__` on `Dimension`. It is modelled as `self.dimension ** -1`, its evident meaning.
- `raiser` (Unit.py:59): it is the `Err` branch of `Dimensions.Add` and `Dimensions.Sub`.

## Findings

| source | as written | input that shows it | evidently intended | confidence | as-written member | corrected member |
|---|---|---|---|---|---|---|
| Measure.py:130-132 | `measure[unit]` divides by the unit's multiplier without checking the unit's dimension | `Measure(1, 'm')['s']` returns 1 | a unit of another dimension is an error, as for `+` and the comparisons | not executed | MeasureExamples.MetreReadInSeconds | Quantities.ValueInChecked |
