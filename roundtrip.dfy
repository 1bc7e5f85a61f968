/** Reading back what `Dimension.__str__` writes: over a table that maps each symbol
    of `baseUnits` to its own axis, `readUnit(str(d))` is `(1, d)` for every
    dimension except the all-zero one, whose empty rendering does not parse. */
module RoundTrip {
  import opened Failures
  import opened Texts
  import opened Powers
  import opened Dimensions
  import opened UnitParser
  import opened ResolutionLaws

  /** The table holds `baseUnits`: each base symbol is its axis with multiplier 1. */
  predicate HoldsBaseUnits(t: UnitTable)
  {
    forall a :: Symbol(a) in t.entries && t.entries[Symbol(a)] == Base(1.0, UnitOf(a))
  }

  // ---------------------------------------------------------------------------
  // Rendered factors read back as terms
  // ---------------------------------------------------------------------------

  /** Every base symbol is a run of symbol characters. */
  lemma SymbolIsSymbol(a: Axis)
    ensures IsSymbol(Symbol(a))
  {
    match a
    case Length =>
    case Mass =>
    case Time =>
    case Current =>
    case Temperature =>
    case AmountOfSubstance =>
    case LuminousIntensity =>
    case Angle =>
  }

  /** A base symbol starts with a symbol character and holds neither `*` nor `/`. */
  lemma SymbolFree(a: Axis)
    ensures Symbol(a) != [] && IsSymbolChar(Symbol(a)[0])
    ensures '*' !in Symbol(a) && '/' !in Symbol(a)
  {
    SymbolIsSymbol(a);
    assert !IsSymbolChar('*') && !IsSymbolChar('/');
  }

  /** Writing `^` and an integer after a symbol adds neither `*` nor `/`. */
  lemma CaretFree(u: string, e: int)
    requires '*' !in u && '/' !in u
    ensures '*' !in u + "^" + IntToString(e) && '/' !in u + "^" + IntToString(e)
  {
    IntToStringChars(e);
  }

  /** A rendered factor reads back as its symbol and exponent, and holds neither `*` nor `/`. */
  lemma AxisTermReads(a: Axis, e: int)
    ensures ReadDimensionTerm(AxisTerm(a, e)) == Ok(Term(Symbol(a), e))
    ensures '*' !in AxisTerm(a, e) && '/' !in AxisTerm(a, e)
    ensures AxisTerm(a, e) != [] && IsSymbolChar(AxisTerm(a, e)[0])
  {
    var u := Symbol(a);
    SymbolIsSymbol(a);
    SymbolFree(a);
    if e == 1 {
      BareSymbolTerm(u);
    } else {
      CaretTerm(u, e);
      CaretFree(u, e);
      assert AxisTerm(a, e)[0] == u[0];
    }
  }

  /** The terms `readUnit` finds in the rendered factors of `axes`. */
  function Terms(d: Dimension, axes: seq<Axis>, negate: bool): (r: seq<Term>)
    ensures |r| == |axes|
  {
    seq(|axes|, i requires 0 <= i < |axes| => Term(Symbol(axes[i]), if negate then -Get(d, axes[i]) else Get(d, axes[i])))
  }

  /** The rendered factors of `axes` read back term by term, and none holds `*` or `/`. */
  lemma ReadAxisTerms(d: Dimension, axes: seq<Axis>, negate: bool)
    ensures ReadTerms(AxisTerms(d, axes, negate)) == Ok(Terms(d, axes, negate))
    ensures forall i :: 0 <= i < |axes| ==> '*' !in AxisTerms(d, axes, negate)[i] && '/' !in AxisTerms(d, axes, negate)[i]
  {
    var parts := AxisTerms(d, axes, negate);
    EachAxisTermReads(d, axes, negate);
    ReadTermsAt(parts);
    assert ReadTerms(parts).value == Terms(d, axes, negate);
  }

  lemma EachAxisTermReads(d: Dimension, axes: seq<Axis>, negate: bool)
    ensures forall i :: 0 <= i < |axes| ==> ReadDimensionTerm(AxisTerms(d, axes, negate)[i]) == Ok(Terms(d, axes, negate)[i])
    ensures forall i :: 0 <= i < |axes| ==> '*' !in AxisTerms(d, axes, negate)[i] && '/' !in AxisTerms(d, axes, negate)[i]
  {
    var parts := AxisTerms(d, axes, negate);
    forall i | 0 <= i < |axes|
      ensures ReadDimensionTerm(parts[i]) == Ok(Terms(d, axes, negate)[i])
      ensures '*' !in parts[i] && '/' !in parts[i]
    {
      AxisTermReads(axes[i], if negate then -Get(d, axes[i]) else Get(d, axes[i]));
    }
  }

  /** Negating the denominator's terms restores the exponents of the dimension. */
  lemma NegatedTerms(d: Dimension, axes: seq<Axis>)
    ensures Negated(Terms(d, axes, true)) == Terms(d, axes, false)
  {
    forall i | 0 <= i < |axes|
      ensures Negated(Terms(d, axes, true))[i] == Terms(d, axes, false)[i]
    {
      NegatedAt(Terms(d, axes, true), i);
    }
  }

  lemma TermsAppend(d: Dimension, x: seq<Axis>, y: seq<Axis>)
    ensures Terms(d, x, false) + Terms(d, y, false) == Terms(d, x + y, false)
  {
  }

  // ---------------------------------------------------------------------------
  // The rendered string splits back into those terms
  // ---------------------------------------------------------------------------

  lemma {:induction false} JoinFirst(parts: seq<string>, sep: char)
    requires |parts| >= 1 && parts[0] != []
    ensures Join(parts, sep) != [] && Join(parts, sep)[0] == parts[0][0]
  {
  }

  /** A joined run of rendered factors holds no `/` and splits on `*` into its
      factors, which read back as the terms of `axes`. */
  lemma JoinedFactors(d: Dimension, axes: seq<Axis>, negate: bool)
    requires axes != []
    ensures var s := Join(AxisTerms(d, axes, negate), '*');
      && '/' !in s && !StartsWithOne(s)
      && ReadTerms(Split(s, '*')) == Ok(Terms(d, axes, negate))
  {
    var parts := AxisTerms(d, axes, negate);
    ReadAxisTerms(d, axes, negate);
    JoinFree(parts, '*', '/');
    SplitJoin(parts, '*');
    AxisTermReads(axes[0], if negate then -Get(d, axes[0]) else Get(d, axes[0]));
    JoinFirst(parts, '*');
    assert !IsSymbolChar('1');
  }

  /** The terms `readUnit` reads from `str(d)`: those of the positive keys, then those
      of the negative keys, each with its exponent in `d`. */
  lemma RenderTerms(d: Dimension)
    requires d != Zero
    ensures UnitTerms(Render(d)) == Ok(Terms(d, TopAxes(d) + BottomAxes(d), false))
  {
    var top, bottom := TopAxes(d), BottomAxes(d);
    RenderEmptyIffZero(d);
    KeysEmpty(d);
    var s := Render(d);
    if bottom == [] {
      JoinedFactors(d, top, false);
      UnitTermsOfProduct(s);
      assert top + bottom == top;
    } else if top == [] {
      var b := Join(AxisTerms(d, bottom, true), '*');
      JoinedFactors(d, bottom, true);
      UnitTermsReciprocal(b);
      NegatedTerms(d, bottom);
      assert top + bottom == bottom;
    } else {
      var a, b := Join(AxisTerms(d, top, false), '*'), Join(AxisTerms(d, bottom, true), '*');
      JoinedFactors(d, top, false);
      JoinedFactors(d, bottom, true);
      UnitTermsQuotient(a, b);
      NegatedTerms(d, bottom);
      TermsAppend(d, top, bottom);
    }
  }

  // ---------------------------------------------------------------------------
  // Folding the terms gives back the dimension
  // ---------------------------------------------------------------------------

  /** The product of each axis of `axes` raised to its exponent in `d`, left to right. */
  function Part(d: Dimension, axes: seq<Axis>): Dimension
  {
    if axes == [] then Zero
    else Mul(Part(d, axes[..|axes| - 1]), Pow(UnitOf(axes[|axes| - 1]), Get(d, axes[|axes| - 1])))
  }

  /** Each occurrence of an axis in `axes` contributes its exponent in `d` once. */
  lemma {:induction false} PartAxes(d: Dimension, axes: seq<Axis>, b: Axis)
    ensures Get(Part(d, axes), b) == Get(d, b) * multiset(axes)[b]
  {
    if axes != [] {
      var n := |axes| - 1;
      var last, g := axes[n], Get(d, axes[n]);
      var m := multiset(axes[..n])[b];
      PartAxes(d, axes[..n], b);
      LastAxisPower(last, g, b);
      assert Get(Part(d, axes), b) == Get(d, b) * m + Get(Pow(UnitOf(last), g), b);
      CountLast(axes, b);
      if last == b {
        OneMore(Get(d, b), m);
      }
    }
  }

  /** The power of one axis's unit has exponent `g` on that axis and 0 elsewhere. */
  lemma LastAxisPower(a: Axis, g: int, b: Axis)
    ensures Get(Pow(UnitOf(a), g), b) == if a == b then g else 0
  {
    UnitOfAxes(a);
    PowAxes(UnitOf(a), g);
  }

  /** The count of `b` in `axes` is its count before the last element, plus one if that is `b`. */
  lemma CountLast(axes: seq<Axis>, b: Axis)
    requires axes != []
    ensures multiset(axes)[b] == multiset(axes[..|axes| - 1])[b] + if axes[|axes| - 1] == b then 1 else 0
  {
    var n := |axes| - 1;
    assert axes == axes[..n] + [axes[n]];
  }

  lemma OneMore(x: int, m: int)
    ensures x * (m + 1) == x * m + x
  {
  }

  /** Over a table holding `baseUnits`, the fold of the terms of `axes` has multiplier 1
      and the product of the axes' powers as its dimension. */
  lemma {:induction false} FoldBaseTerms(t: UnitTable, d: Dimension, axes: seq<Axis>)
    requires WellFormed(t) && HoldsBaseUnits(t)
    ensures RankedBelow(t, Terms(d, axes, false), t.height)
    ensures FoldTerms(t, Terms(d, axes, false), t.height) == Ok(Factor(1.0, Part(d, axes)))
  {
    var terms := Terms(d, axes, false);
    RankedBelowHeight(t, terms);
    if axes != [] {
      var n := |axes| - 1;
      var a := axes[n];
      FoldBaseTerms(t, d, axes[..n]);
      assert terms[..n] == Terms(d, axes[..n], false);
      assert terms[n] == Term(Symbol(a), Get(d, a));
      BaseEntry(t, Symbol(a));
      RealPowSign(1.0, Get(d, a));
    }
  }

  /** The positive and the negative keys together name every non-zero axis once. */
  lemma KeysRebuild(d: Dimension)
    ensures Part(d, TopAxes(d) + BottomAxes(d)) == d
  {
    var top, bottom := TopAxes(d), BottomAxes(d);
    var p := Part(d, top + bottom);
    forall b ensures Get(p, b) == Get(d, b) {
      PartAxes(d, top + bottom, b);
      RenderKeys(d, b);
      assert multiset(top + bottom) == multiset(top) + multiset(bottom);
      var k := multiset(top + bottom)[b];
      assert k == if Get(d, b) == 0 then 0 else 1;
      assert Get(d, b) * k == Get(d, b);
    }
    EqualIffAllAxes(p, d);
  }

  /** `readUnit(str(d))` is `(1, d)` for every non-zero dimension. */
  lemma RenderReadsBack(t: UnitTable, d: Dimension)
    requires WellFormed(t) && HoldsBaseUnits(t) && d != Zero
    ensures ReadUnit(t, Render(d)) == Ok(Factor(1.0, d))
  {
    var axes := TopAxes(d) + BottomAxes(d);
    RenderTerms(d);
    FoldBaseTerms(t, d, axes);
    KeysRebuild(d);
  }

  /** The all-zero dimension renders as "", which `readUnit` rejects as a malformed term. */
  lemma ZeroDoesNotReadBack(t: UnitTable)
    requires WellFormed(t)
    ensures Render(Zero) == ""
    ensures ReadUnit(t, Render(Zero)) == Err(MalformedTerm(""))
  {
    RenderEmptyIffZero(Zero);
    assert Split("", '/') == [""] && Split("", '*') == [""];
    assert ReadDimensionTerm("") == Err(MalformedTerm(""));
    assert ReadTerms([""]) == Err(MalformedTerm(""));
  }
}
