/** Laws of `readUnit` in Measure.py: how the fold over terms composes, what a
    reference entry resolves to, and what `*`, `/` and a leading "1" mean. */
module ResolutionLaws {
  import opened Failures
  import opened Texts
  import opened Powers
  import opened Dimensions
  import opened UnitParser

  /** Two results combined as the fold combines them; the first error wins. */
  function CombineResults(x: Result<Factor>, y: Result<Factor>): Result<Factor>
  {
    match x
    case Err(e) => Err(e)
    case Ok(f) =>
      match y
      case Err(e) => Err(e)
      case Ok(g) => Ok(Combine(f, g))
  }

  /** The reciprocal of a successful result; an error stays as it is. */
  function InvertResult(x: Result<Factor>): Result<Factor>
    requires x.Ok? ==> x.value.multiplier != 0.0
  {
    match x
    case Err(e) => Err(e)
    case Ok(f) => Ok(Invert(f))
  }

  // ---------------------------------------------------------------------------
  // The factor algebra
  // ---------------------------------------------------------------------------

  /** `(1, Dimension())` is neutral on both sides of the fold step. */
  lemma CombineIdentity(f: Factor)
    ensures Combine(Identity, f) == f && Combine(f, Identity) == f
  {
    ZeroIsIdentity(f.dimension);
  }

  lemma CombineAssociates(f: Factor, g: Factor, h: Factor)
    ensures Combine(Combine(f, g), h) == Combine(f, Combine(g, h))
  {
    MulAssociates(f.dimension, g.dimension, h.dimension);
  }

  /** The reciprocal of a product is the product of the reciprocals. */
  lemma InvertCombine(f: Factor, g: Factor)
    requires f.multiplier != 0.0 && g.multiplier != 0.0
    ensures Combine(f, g).multiplier != 0.0
    ensures Invert(Combine(f, g)) == Combine(Invert(f), Invert(g))
  {
    PowDistributes(f.dimension, g.dimension, -1, 0);
    assert 1.0 / (f.multiplier * g.multiplier) == (1.0 / f.multiplier) * (1.0 / g.multiplier);
  }

  /** Raising to `-p` is inverting what raising to `p` gives. */
  lemma InvertRaise(f: Factor, p: int)
    requires f.multiplier != 0.0
    ensures Raise(f, p).multiplier != 0.0
    ensures Invert(Raise(f, p)) == Raise(f, -p)
  {
    RealPowNegate(f.multiplier, p);
    PowPow(f.dimension, p, -1);
    assert p * -1 == -p;
  }

  /** One step of the fold over negated terms is the reciprocal of the step over the terms. */
  lemma NegatedStep(acc: Factor, f: Factor, p: int)
    requires acc.multiplier != 0.0 && f.multiplier != 0.0
    ensures Raise(f, p).multiplier != 0.0
    ensures Combine(Invert(acc), Raise(f, -p)) == Invert(Combine(acc, Raise(f, p)))
  {
    InvertRaise(f, p);
    InvertCombine(acc, Raise(f, p));
  }

  // ---------------------------------------------------------------------------
  // Ranks
  // ---------------------------------------------------------------------------

  lemma RankedAppend(t: UnitTable, x: seq<Term>, y: seq<Term>, bound: nat)
    requires RankedBelow(t, x, bound) && RankedBelow(t, y, bound)
    ensures RankedBelow(t, x + y, bound)
  {
    forall i | 0 <= i < |x + y| && (x + y)[i].symbol in t.entries
      ensures (x + y)[i].symbol in t.rank && t.rank[(x + y)[i].symbol] < bound
    {
      if i >= |x| {
        assert (x + y)[i] == y[i - |x|];
      }
    }
  }

  lemma RankedPrefix(t: UnitTable, terms: seq<Term>, k: nat, bound: nat)
    requires k <= |terms| && RankedBelow(t, terms, bound)
    ensures RankedBelow(t, terms[..k], bound)
  {
    forall i | 0 <= i < k && terms[..k][i].symbol in t.entries
      ensures terms[..k][i].symbol in t.rank && t.rank[terms[..k][i].symbol] < bound
    {
      assert terms[..k][i] == terms[i];
    }
  }

  /** In a well-formed table every term ranks below the height. */
  lemma RankedBelowHeight(t: UnitTable, terms: seq<Term>)
    requires WellFormed(t)
    ensures RankedBelow(t, terms, t.height)
  {
  }

  lemma {:induction false} NegatedPrefix(terms: seq<Term>, k: nat)
    requires k <= |terms|
    ensures Negated(terms)[..k] == Negated(terms[..k])
  {
    forall i | 0 <= i < k
      ensures Negated(terms)[..k][i] == Negated(terms[..k])[i]
    {
      NegatedAt(terms, i);
      NegatedAt(terms[..k], i);
    }
  }

  lemma NegatedSingle(terms: seq<Term>)
    requires |terms| == 1
    ensures Negated(terms) == [Term(terms[0].symbol, -terms[0].power)]
  {
    assert terms[1..] == [];
  }

  lemma NegatedRanked(t: UnitTable, terms: seq<Term>, bound: nat)
    requires RankedBelow(t, terms, bound)
    ensures RankedBelow(t, Negated(terms), bound)
  {
    forall i | 0 <= i < |terms|
      ensures Negated(terms)[i].symbol == terms[i].symbol
    {
      NegatedAt(terms, i);
    }
  }

  // ---------------------------------------------------------------------------
  // The fold
  // ---------------------------------------------------------------------------

  /** The termination bound does not change what the fold computes. */
  lemma {:induction false} FoldAnyBound(t: UnitTable, terms: seq<Term>, b1: nat, b2: nat)
    requires WellFormed(t) && RankedBelow(t, terms, b1) && RankedBelow(t, terms, b2)
    ensures FoldTerms(t, terms, b1) == FoldTerms(t, terms, b2)
    decreases |terms|
  {
    if terms != [] {
      var k := |terms| - 1;
      RankedPrefix(t, terms, k, b1);
      RankedPrefix(t, terms, k, b2);
      FoldAnyBound(t, terms[..k], b1, b2);
    }
  }

  /** `readUnit` under any sufficient bound is `readUnit`. */
  lemma ReadUnitAnyBound(t: UnitTable, s: string, bound: nat)
    requires WellFormed(t) && ReferencesBelow(t, s, bound)
    ensures ReadUnitBelow(t, s, bound) == ReadUnit(t, s)
  {
    if UnitTerms(s).Ok? {
      RankedBelowHeight(t, UnitTerms(s).value);
      FoldAnyBound(t, UnitTerms(s).value, bound, t.height);
    }
  }

  /** A successful result with its multiplier scaled by `m`; an error stays as it is. */
  function ScaleResult(m: real, x: Result<Factor>): Result<Factor>
  {
    match x
    case Err(e) => Err(e)
    case Ok(f) => Ok(Scale(m, f))
  }

  /** A reference entry `(m, ref)` resolves to `readUnit(ref)` with its multiplier scaled by `m`. */
  lemma DerivedEntry(t: UnitTable, u: string)
    requires WellFormed(t) && u in t.entries && t.entries[u].Derived?
    ensures GetUnitMultiplierAndDimension(t, u) == ScaleResult(t.entries[u].multiplier, ReadUnit(t, t.entries[u].reference))
  {
    var e := t.entries[u];
    var bound := t.rank[u];
    assert ReferencesBelow(t, e.reference, bound);
    ReadUnitAnyBound(t, e.reference, bound);
  }

  /** A base entry resolves to itself. */
  lemma BaseEntry(t: UnitTable, u: string)
    requires WellFormed(t) && u in t.entries && t.entries[u].Base?
    ensures GetUnitMultiplierAndDimension(t, u) == Ok(Factor(t.entries[u].multiplier, t.entries[u].dimension))
  {
  }

  /** Folding a concatenation combines the folds of the two parts. */
  lemma {:induction false} FoldAppend(t: UnitTable, x: seq<Term>, y: seq<Term>, bound: nat)
    requires WellFormed(t) && RankedBelow(t, x, bound) && RankedBelow(t, y, bound)
    ensures RankedBelow(t, x + y, bound)
    ensures FoldTerms(t, x + y, bound) == CombineResults(FoldTerms(t, x, bound), FoldTerms(t, y, bound))
    decreases |y|
  {
    RankedAppend(t, x, y, bound);
    if y == [] {
      assert x + y == x;
      if FoldTerms(t, x, bound).Ok? {
        CombineIdentity(FoldTerms(t, x, bound).value);
      }
    } else {
      var k := |y| - 1;
      var last := y[k];
      assert (x + y)[..|x + y| - 1] == x + y[..k];
      assert (x + y)[|x + y| - 1] == last;
      RankedPrefix(t, y, k, bound);
      FoldAppend(t, x, y[..k], bound);
      var rx, ry := FoldTerms(t, x, bound), FoldTerms(t, y[..k], bound);
      var g := GetUnitMultiplierAndDimension(t, last.symbol);
      if rx.Ok? && ry.Ok? && g.Ok? {
        RealPowSign(g.value.multiplier, last.power);
        CombineAssociates(rx.value, ry.value, Raise(g.value, last.power));
      }
    }
  }

  /** Folding the negated terms gives the reciprocal of folding the terms. */
  lemma {:induction false} FoldNegated(t: UnitTable, terms: seq<Term>, bound: nat)
    requires WellFormed(t) && RankedBelow(t, terms, bound)
    ensures RankedBelow(t, Negated(terms), bound)
    ensures FoldTerms(t, Negated(terms), bound) == InvertResult(FoldTerms(t, terms, bound))
    decreases |terms|
  {
    NegatedRanked(t, terms, bound);
    if terms != [] {
      var k := |terms| - 1;
      RankedPrefix(t, terms, k, bound);
      FoldNegated(t, terms[..k], bound);
      FoldNegatedLast(t, terms, bound);
    }
  }

  /** The step of `FoldNegated`: if it holds for all but the last term, it holds for all terms. */
  lemma FoldNegatedLast(t: UnitTable, terms: seq<Term>, bound: nat)
    requires WellFormed(t) && RankedBelow(t, terms, bound) && terms != []
    requires RankedBelow(t, terms[..|terms| - 1], bound) && RankedBelow(t, Negated(terms), bound)
    requires RankedBelow(t, Negated(terms[..|terms| - 1]), bound)
    requires FoldTerms(t, Negated(terms[..|terms| - 1]), bound) == InvertResult(FoldTerms(t, terms[..|terms| - 1], bound))
    ensures FoldTerms(t, Negated(terms), bound) == InvertResult(FoldTerms(t, terms, bound))
  {
    var k := |terms| - 1;
    var last, negated := terms[k], Negated(terms);
    NegatedPrefix(terms, k);
    NegatedAt(terms, k);
    FoldLast(t, terms, bound);
    FoldLast(t, negated, bound);
    StepNegated(FoldTerms(t, terms[..k], bound), GetUnitMultiplierAndDimension(t, last.symbol), last.power);
  }

  /** One step of the fold: the accumulated factor times the last term's factor raised to its power. */
  function FoldStep(acc: Result<Factor>, g: Result<Factor>, p: int): Result<Factor>
    requires g.Ok? ==> g.value.multiplier != 0.0
  {
    match acc
    case Err(e) => Err(e)
    case Ok(a) =>
      match g
      case Err(e) => Err(e)
      case Ok(f) => Ok(Combine(a, Raise(f, p)))
  }

  /** The fold over a non-empty list is one step after the fold over all but the last term. */
  lemma FoldLast(t: UnitTable, terms: seq<Term>, bound: nat)
    requires WellFormed(t) && RankedBelow(t, terms, bound) && terms != []
    ensures RankedBelow(t, terms[..|terms| - 1], bound)
    ensures FoldTerms(t, terms, bound) ==
      FoldStep(FoldTerms(t, terms[..|terms| - 1], bound),
               GetUnitMultiplierAndDimension(t, terms[|terms| - 1].symbol), terms[|terms| - 1].power)
  {
    RankedPrefix(t, terms, |terms| - 1, bound);
  }

  /** A fold step over the reciprocal and the negated power is the reciprocal of the step. */
  lemma StepNegated(acc: Result<Factor>, g: Result<Factor>, p: int)
    requires acc.Ok? ==> acc.value.multiplier > 0.0
    requires g.Ok? ==> g.value.multiplier > 0.0
    ensures FoldStep(acc, g, p).Ok? ==> FoldStep(acc, g, p).value.multiplier != 0.0
    ensures FoldStep(InvertResult(acc), g, -p) == InvertResult(FoldStep(acc, g, p))
  {
    if acc.Ok? && g.Ok? {
      NegatedStep(acc.value, g.value, p);
    }
  }

  // ---------------------------------------------------------------------------
  // Unit strings
  // ---------------------------------------------------------------------------

  /** `[readDimensionTerm(term) for term in terms]`: it succeeds exactly when every
      term reads, and then holds each term's reading at that term's position. */
  lemma {:induction false} ReadTermsAt(x: seq<string>)
    ensures ReadTerms(x).Ok? <==> forall i :: 0 <= i < |x| ==> ReadDimensionTerm(x[i]).Ok?
    ensures ReadTerms(x).Ok? ==> forall i :: 0 <= i < |x| ==> ReadTerms(x).value[i] == ReadDimensionTerm(x[i]).value
  {
    if x != [] {
      ReadTermsAt(x[1..]);
      if ReadTerms(x).Ok? {
        forall i | 0 < i < |x| ensures ReadTerms(x).value[i] == ReadDimensionTerm(x[i]).value {
          assert x[1..][i - 1] == x[i];
        }
      }
      if forall i :: 0 <= i < |x| ==> ReadDimensionTerm(x[i]).Ok? {
        forall i | 0 <= i < |x[1..]| ensures ReadDimensionTerm(x[1..][i]).Ok? {
          assert x[1..][i] == x[i + 1];
        }
      }
    }
  }

  /** Reading two lists of term strings one after the other. */
  lemma ReadTermsAppend(x: seq<string>, y: seq<string>)
    ensures ReadTerms(x + y).Ok? <==> ReadTerms(x).Ok? && ReadTerms(y).Ok?
    ensures ReadTerms(x + y).Ok? ==> ReadTerms(x + y).value == ReadTerms(x).value + ReadTerms(y).value
  {
    ReadTermsAppendSucceeds(x, y);
    if ReadTerms(x + y).Ok? {
      ReadTermsAppendValues(x, y);
    }
  }

  lemma ReadTermsAppendSucceeds(x: seq<string>, y: seq<string>)
    ensures ReadTerms(x + y).Ok? <==> ReadTerms(x).Ok? && ReadTerms(y).Ok?
  {
    ReadTermsAt(x);
    ReadTermsAt(y);
    ReadTermsAt(x + y);
    if ReadTerms(x + y).Ok? {
      forall i | 0 <= i < |x| ensures ReadDimensionTerm(x[i]).Ok? {
        assert (x + y)[i] == x[i];
      }
      forall i | 0 <= i < |y| ensures ReadDimensionTerm(y[i]).Ok? {
        assert (x + y)[|x| + i] == y[i];
      }
    }
    if ReadTerms(x).Ok? && ReadTerms(y).Ok? {
      forall i | 0 <= i < |x + y| ensures ReadDimensionTerm((x + y)[i]).Ok? {
        if i >= |x| { assert (x + y)[i] == y[i - |x|]; }
      }
    }
  }

  lemma ReadTermsAppendValues(x: seq<string>, y: seq<string>)
    requires ReadTerms(x + y).Ok? && ReadTerms(x).Ok? && ReadTerms(y).Ok?
    ensures ReadTerms(x + y).value == ReadTerms(x).value + ReadTerms(y).value
  {
    ReadTermsAt(x);
    ReadTermsAt(y);
    ReadTermsAt(x + y);
    var l, r := ReadTerms(x + y).value, ReadTerms(x).value + ReadTerms(y).value;
    forall i | 0 <= i < |l| ensures l[i] == r[i] {
      if i >= |x| { assert (x + y)[i] == y[i - |x|]; }
    }
  }

  lemma ReadTermsSingle(term: string, x: Term)
    requires ReadDimensionTerm(term) == Ok(x)
    ensures ReadTerms([term]) == Ok([x])
  {
    assert [term][0] == term && [term][1..] == [];
    assert [x] + [] == [x];
  }

  /** Without a `/` and without a leading "1", the terms are those of the `*`-separated pieces. */
  lemma UnitTermsOfProduct(s: string)
    requires '/' !in s && !StartsWithOne(s)
    ensures UnitTerms(s) == ReadTerms(Split(s, '*'))
  {
    assert Split(s, '/') == [s];
    var r := ReadTerms(Split(s, '*'));
    if r.Ok? {
      assert r.value + Negated([]) == r.value;
    }
  }

  /** A successful result raised to the power `p`; an error stays as it is. */
  function RaiseResult(x: Result<Factor>, p: int): Result<Factor>
    requires x.Ok? ==> x.value.multiplier != 0.0
  {
    match x
    case Err(e) => Err(e)
    case Ok(f) => Ok(Raise(f, p))
  }

  /** A unit string of one term `sym^p` is that one term. */
  lemma UnitTermsOfTerm(term: string, u: string, p: int)
    requires '/' !in term && '*' !in term && !StartsWithOne(term)
    requires ReadDimensionTerm(term) == Ok(Term(u, p))
    ensures UnitTerms(term) == Ok([Term(u, p)])
  {
    UnitTermsOfProduct(term);
    assert Split(term, '*') == [term];
    assert [term][0] == term && [term][1..] == [];
    assert [Term(u, p)] + [] == [Term(u, p)];
  }

  /** A unit string of one term `sym^p` reads as the table entry of `sym` raised to `p`. */
  lemma ReadUnitTerm(t: UnitTable, term: string, u: string, p: int)
    requires WellFormed(t)
    requires '/' !in term && '*' !in term && !StartsWithOne(term)
    requires ReadDimensionTerm(term) == Ok(Term(u, p))
    ensures ReadUnit(t, term) == RaiseResult(GetUnitMultiplierAndDimension(t, u), p)
  {
    UnitTermsOfTerm(term, u, p);
    var terms := [Term(u, p)];
    assert ReadUnit(t, term) == FoldTerms(t, terms, t.height);
    assert terms[..0] == [];
    var g := GetUnitMultiplierAndDimension(t, u);
    if g.Ok? {
      var f := g.value;
      RealPowSign(f.multiplier, p);
      CombineIdentity(Raise(f, p));
      assert FoldTerms(t, terms, t.height) == Ok(Combine(Identity, Raise(f, p)));
      assert RaiseResult(g, p) == Ok(Raise(f, p));
    } else {
      assert FoldTerms(t, terms, t.height) == Err(g.error);
    }
  }

  /** A bare symbol reads as its table entry. */
  lemma ReadUnitSymbol(t: UnitTable, u: string)
    requires WellFormed(t) && IsSymbol(u)
    ensures ReadUnit(t, u) == GetUnitMultiplierAndDimension(t, u)
  {
    assert !IsSymbolChar('/') && !IsSymbolChar('*');
    assert '/' !in u && '*' !in u;
    BareSymbolTerm(u);
    ReadUnitTerm(t, u, u, 1);
    var g := GetUnitMultiplierAndDimension(t, u);
    if g.Ok? {
      var f := g.value;
      PowZero(f.dimension);
      assert NatPow(f.multiplier, 1) == f.multiplier * NatPow(f.multiplier, 0);
      assert Raise(f, 1) == f;
    }
  }

  /** The terms of `"1/u"` are those of `u` with their powers negated. */
  lemma UnitTermsReciprocal(u: string)
    requires '/' !in u
    ensures UnitTerms("1/" + u).Ok? <==> ReadTerms(Split(u, '*')).Ok?
    ensures UnitTerms("1/" + u).Err? ==> UnitTerms("1/" + u) == ReadTerms(Split(u, '*'))
    ensures UnitTerms("1/" + u).Ok? ==> UnitTerms("1/" + u).value == Negated(ReadTerms(Split(u, '*')).value)
  {
    var s := "1/" + u;
    assert s == "1" + ['/'] + u;
    SplitAfter("1", '/', u);
    assert Split(u, '/') == [u];
    assert StartsWithOne(s);
    var r := ReadTerms(Split(u, '*'));
    if r.Ok? {
      assert [] + Negated(r.value) == Negated(r.value);
    }
  }

  /** `"1/u"` reads as the reciprocal of `u`: `1/m` and every exponent negated. */
  lemma ReadUnitReciprocal(t: UnitTable, u: string)
    requires WellFormed(t)
    requires '/' !in u && !StartsWithOne(u)
    ensures ReadUnit(t, "1/" + u).Ok? ==> ReadUnit(t, "1/" + u).value.multiplier != 0.0
    ensures ReadUnit(t, "1/" + u) == InvertResult(ReadUnit(t, u))
  {
    UnitTermsReciprocal(u);
    UnitTermsOfProduct(u);
    var r := ReadTerms(Split(u, '*'));
    if r.Ok? {
      RankedBelowHeight(t, r.value);
      FoldNegated(t, r.value, t.height);
    }
  }

  /** Text after a second `/` is ignored, and so is the denominator before it. */
  lemma ReadUnitExtraSlash(t: UnitTable, a: string, b: string, c: string)
    requires WellFormed(t)
    requires '/' !in a && '/' !in b
    ensures ReadUnit(t, a + "/" + b + "/" + c) == ReadUnit(t, a)
  {
    ExtraSlashTermStrings(a, b, c);
    assert UnitTerms(a + "/" + b + "/" + c) == UnitTerms(a);
  }

  /** With two `/`, the numerator is that of the text before the first and there is no denominator. */
  lemma ExtraSlashTermStrings(a: string, b: string, c: string)
    requires '/' !in a && '/' !in b
    ensures TopTermStrings(a + "/" + b + "/" + c) == TopTermStrings(a)
    ensures BottomTermStrings(a + "/" + b + "/" + c) == [] == BottomTermStrings(a)
  {
    TwoSlashes(a, b, c);
    SlashFree(a);
    LeadingText(a, b, c);
  }

  lemma TwoSlashes(a: string, b: string, c: string)
    requires '/' !in a && '/' !in b
    ensures |Split(a + "/" + b + "/" + c, '/')| >= 3
    ensures Split(a + "/" + b + "/" + c, '/')[0] == a
  {
    assert a + "/" + b + "/" + c == a + ['/'] + (b + ['/'] + c);
    SplitAfter(a, '/', b + ['/'] + c);
    SplitAfter(b, '/', c);
  }

  lemma SlashFree(a: string)
    requires '/' !in a
    ensures Split(a, '/') == [a]
  {
  }

  /** Text followed by a `/` starts with "1" exactly when the text does. */
  lemma LeadingText(a: string, b: string, c: string)
    ensures StartsWithOne(a + "/" + b + "/" + c) <==> StartsWithOne(a)
  {
    var s := a + "/" + b + "/" + c;
    if |a| > 0 {
      assert s[0] == a[0];
    } else {
      assert s[0] == '/';
    }
  }

  /** `a*b` reads successfully exactly when `a` and `b` do, and then multiplies them. */
  lemma ReadUnitProduct(t: UnitTable, a: string, b: string)
    requires WellFormed(t)
    requires '/' !in a && '/' !in b && !StartsWithOne(a) && !StartsWithOne(b)
    ensures ReadUnit(t, a + "*" + b).Ok? <==> ReadUnit(t, a).Ok? && ReadUnit(t, b).Ok?
    ensures ReadUnit(t, a + "*" + b).Ok? ==>
      ReadUnit(t, a + "*" + b).value == Combine(ReadUnit(t, a).value, ReadUnit(t, b).value)
  {
    var s := a + "*" + b;
    assert s == a + ['*'] + b;
    assert '/' !in s;
    assert !StartsWithOne(s) by {
      if |a| > 0 {
        assert s[0] == a[0];
      } else {
        assert s[0] == '*';
      }
    }
    UnitTermsOfProduct(s);
    UnitTermsOfProduct(a);
    UnitTermsOfProduct(b);
    SplitConcat(a, '*', b);
    ReadTermsAppend(Split(a, '*'), Split(b, '*'));
    var ra, rb := ReadTerms(Split(a, '*')), ReadTerms(Split(b, '*'));
    if ra.Ok? && rb.Ok? {
      RankedBelowHeight(t, ra.value);
      RankedBelowHeight(t, rb.value);
      FoldAppend(t, ra.value, rb.value, t.height);
    }
  }

  /** The terms of `a/b` are those of `a`, then those of `b` with their powers negated. */
  lemma UnitTermsQuotient(a: string, b: string)
    requires '/' !in a && '/' !in b && !StartsWithOne(a)
    ensures UnitTerms(a + "/" + b).Ok? <==> ReadTerms(Split(a, '*')).Ok? && ReadTerms(Split(b, '*')).Ok?
    ensures UnitTerms(a + "/" + b).Ok? ==>
      UnitTerms(a + "/" + b).value == ReadTerms(Split(a, '*')).value + Negated(ReadTerms(Split(b, '*')).value)
  {
    var s := a + "/" + b;
    assert s == a + ['/'] + b;
    SplitAfter(a, '/', b);
    assert Split(b, '/') == [b];
    assert !StartsWithOne(s) by {
      if |a| > 0 {
        assert s[0] == a[0];
      } else {
        assert s[0] == '/';
      }
    }
  }

  /** `a/b` reads successfully exactly when `a` and `b` do, and then divides `a` by `b`. */
  lemma ReadUnitQuotient(t: UnitTable, a: string, b: string)
    requires WellFormed(t)
    requires '/' !in a && '/' !in b && !StartsWithOne(a) && !StartsWithOne(b)
    ensures ReadUnit(t, a + "/" + b).Ok? <==> ReadUnit(t, a).Ok? && ReadUnit(t, b).Ok?
    ensures ReadUnit(t, a + "/" + b).Ok? ==>
      ReadUnit(t, a + "/" + b).value == Combine(ReadUnit(t, a).value, Invert(ReadUnit(t, b).value))
  {
    UnitTermsQuotient(a, b);
    UnitTermsOfProduct(a);
    UnitTermsOfProduct(b);
    var ra, rb := ReadTerms(Split(a, '*')), ReadTerms(Split(b, '*'));
    if ra.Ok? && rb.Ok? {
      RankedBelowHeight(t, ra.value);
      RankedBelowHeight(t, rb.value);
      FoldNegated(t, rb.value, t.height);
      FoldAppend(t, ra.value, Negated(rb.value), t.height);
    }
  }
}
