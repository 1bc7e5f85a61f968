/** What `readUnit` resolves a few unit strings to over the sample table: newton,
    hertz, kilometres per hour, the day, superscript powers and an unknown symbol. */
module SampleResolutions {
  import opened Failures
  import opened Texts
  import opened Powers
  import opened Dimensions
  import opened UnitParser
  import opened ResolutionLaws
  import opened SampleUnits

  // ---------------------------------------------------------------------------
  // Patterns of unit strings, over any well-formed table
  // ---------------------------------------------------------------------------

  /** A symbol naming a base entry resolves to that entry's factor. */
  lemma BaseSymbol(t: UnitTable, u: string, m: real, d: Dimension)
    requires WellFormed(t) && IsSymbol(u) && Defines(t, u, Base(m, d))
    ensures ReadUnit(t, u) == Ok(Factor(m, d))
  {
    ReadUnitSymbol(t, u);
    BaseEntry(t, u);
  }

  /** A symbol naming a derived entry resolves to its reference, scaled by its multiplier. */
  lemma DerivedSymbol(t: UnitTable, u: string, m: real, reference: string, f: Factor)
    requires WellFormed(t) && IsSymbol(u) && Defines(t, u, Derived(m, reference)) && ReadUnit(t, reference) == Ok(f)
    ensures ReadUnit(t, u) == Ok(Scale(m, f))
  {
    ReadUnitSymbol(t, u);
    DerivedEntry(t, u);
  }

  /** `a*b/c^k` for three symbols: the product of `a` and `b` over the `k`-th power of `c`. */
  lemma ProductOverPower(t: UnitTable, a: string, b: string, c: string, k: int, fa: Factor, fb: Factor, fc: Factor)
    requires WellFormed(t) && IsSymbol(a) && IsSymbol(b) && IsSymbol(c)
    requires ReadUnit(t, a).Ok? && ReadUnit(t, a).value == fa
    requires ReadUnit(t, b).Ok? && ReadUnit(t, b).value == fb
    requires ReadUnit(t, c).Ok? && ReadUnit(t, c).value == fc
    ensures fc.multiplier != 0.0 && Raise(fc, k).multiplier != 0.0
    ensures ReadUnit(t, (a + "*" + b) + "/" + (c + "^" + IntToString(k))).Ok?
    ensures ReadUnit(t, (a + "*" + b) + "/" + (c + "^" + IntToString(k))).value == Combine(Combine(fa, fb), Invert(Raise(fc, k)))
  {
    var top, power := a + "*" + b, c + "^" + IntToString(k);
    ProductTerms(a, b);
    PowerTerms(c, k);
    assert power[0] == c[0];
    assert !IsSymbolChar('1') && !IsSymbolChar('*');
    assert '*' !in power by {
      assert Split(power, '*') == [power];
    }
    assert '/' !in a && '/' !in b && a[0] != '1' && b[0] != '1';
    ReadUnitProduct(t, a, b);
    CaretTerm(c, k);
    ReadUnitTerm(t, power, c, k);
    ReadUnitSymbol(t, c);
    ReadUnitQuotient(t, top, power);
    InvertRaise(fc, k);
  }

  /** `a/b` for two symbols. */
  lemma SymbolOverSymbol(t: UnitTable, a: string, b: string, fa: Factor, fb: Factor)
    requires WellFormed(t) && IsSymbol(a) && IsSymbol(b)
    requires ReadUnit(t, a) == Ok(fa) && ReadUnit(t, b) == Ok(fb)
    ensures fb.multiplier != 0.0
    ensures ReadUnit(t, a + "/" + b).Ok? && ReadUnit(t, a + "/" + b).value == Combine(fa, Invert(fb))
  {
    assert !IsSymbolChar('1') && !IsSymbolChar('/');
    assert '/' !in a && '/' !in b && a[0] != '1' && b[0] != '1';
    ReadUnitQuotient(t, a, b);
  }

  /** 1000 of `d` over 3600 of `e` is 5/18 of `d/e`. */
  lemma ThousandOverThirtySixHundred(d: Dimension, e: Dimension)
    ensures Combine(Factor(1000.0, d), Invert(Factor(3600.0, e))) == Factor(5.0 / 18.0, Div(d, e))
  {
    DivIsMulByInverse(d, e);
  }

  lemma UnitOverUnit(d: Dimension, e: Dimension)
    ensures Combine(Factor(1.0, d), Invert(Factor(1.0, e))) == Factor(1.0, Div(d, e))
  {
    DivIsMulByInverse(d, e);
  }

  lemma SquareOfUnit(d: Dimension)
    ensures Raise(Factor(1.0, d), 2) == Factor(1.0, Pow(d, 2))
  {
    NatPowOne(2);
  }

  lemma ProductOfUnits(d: Dimension, e: Dimension)
    ensures Combine(Factor(1.0, d), Factor(1.0, e)) == Factor(1.0, Mul(d, e))
  {
  }

  lemma QuotientOfUnits(d: Dimension, e: Dimension)
    ensures Scale(1.0, Combine(Factor(1.0, d), Invert(Factor(1.0, e)))) == Factor(1.0, Div(d, e))
  {
    DivIsMulByInverse(d, e);
  }

  lemma ProductOverSquareOfUnits(d: Dimension, e: Dimension, g: Dimension)
    ensures Raise(Factor(1.0, g), 2).multiplier != 0.0
    ensures Scale(1.0, Combine(Combine(Factor(1.0, d), Factor(1.0, e)), Invert(Raise(Factor(1.0, g), 2))))
         == Factor(1.0, Div(Mul(d, e), Pow(g, 2)))
  {
    SquareOfUnit(g);
    ProductOfUnits(d, e);
    QuotientOfUnits(Mul(d, e), Pow(g, 2));
  }

  // ---------------------------------------------------------------------------
  // Units of any table that holds the source's entries for them
  // ---------------------------------------------------------------------------

  /** The table maps `u` to `e`. */
  predicate Defines(t: UnitTable, u: string, e: Entry)
  {
    u in t.entries && t.entries[u] == e
  }

  /** The entries of `m`, `kg` and `s` in `unitInformation`. */
  predicate HasBaseUnits(t: UnitTable)
  {
    && Defines(t, "m", Base(1.0, UnitOf(Length)))
    && Defines(t, "kg", Base(1.0, UnitOf(Mass)))
    && Defines(t, "s", Base(1.0, UnitOf(Time)))
  }

  lemma BaseUnits(t: UnitTable)
    requires WellFormed(t) && HasBaseUnits(t)
    ensures ReadUnit(t, "m").Ok? && ReadUnit(t, "m").value == Factor(1.0, UnitOf(Length))
    ensures ReadUnit(t, "kg").Ok? && ReadUnit(t, "kg").value == Factor(1.0, UnitOf(Mass))
    ensures ReadUnit(t, "s").Ok? && ReadUnit(t, "s").value == Factor(1.0, UnitOf(Time))
  {
    BaseSymbol(t, "m", 1.0, UnitOf(Length));
    BaseSymbol(t, "kg", 1.0, UnitOf(Mass));
    BaseSymbol(t, "s", 1.0, UnitOf(Time));
  }

  lemma NewtonReference()
    ensures "kg*m/s^2" == ("kg" + "*" + "m") + "/" + ("s" + "^" + IntToString(2))
  {
    assert IntToString(2) == "2";
  }

  /** A unit defined as `a*b/c^2` over three base units. */
  lemma ProductOverSquareOfBases(t: UnitTable, u: string, a: string, b: string, c: string, da: Dimension, db: Dimension, dc: Dimension)
    requires WellFormed(t) && IsSymbol(u) && IsSymbol(a) && IsSymbol(b) && IsSymbol(c)
    requires Defines(t, a, Base(1.0, da)) && Defines(t, b, Base(1.0, db)) && Defines(t, c, Base(1.0, dc))
    requires Defines(t, u, Derived(1.0, (a + "*" + b) + "/" + (c + "^" + IntToString(2))))
    ensures ReadUnit(t, u).Ok? && ReadUnit(t, u).value == Factor(1.0, Div(Mul(da, db), Pow(dc, 2)))
  {
    BaseSymbol(t, a, 1.0, da);
    BaseSymbol(t, b, 1.0, db);
    BaseSymbol(t, c, 1.0, dc);
    ProductOverPower(t, a, b, c, 2, Factor(1.0, da), Factor(1.0, db), Factor(1.0, dc));
    DerivedSymbol(t, u, 1.0, (a + "*" + b) + "/" + (c + "^" + IntToString(2)), Combine(Combine(Factor(1.0, da), Factor(1.0, db)), Invert(Raise(Factor(1.0, dc), 2))));
    ProductOverSquareOfUnits(da, db, dc);
  }

  /** `N` resolves to `(1, kg*m/s^2)`: the reference "kg*m/s^2" is read term by term. */
  lemma NewtonResolves(t: UnitTable)
    requires WellFormed(t) && HasBaseUnits(t) && Defines(t, "N", Derived(1.0, "kg*m/s^2"))
    ensures ReadUnit(t, "N").Ok? && ReadUnit(t, "N").value == Factor(1.0, Div(Mul(UnitOf(Mass), UnitOf(Length)), Pow(UnitOf(Time), 2)))
  {
    NewtonReference();
    ProductOverSquareOfBases(t, "N", "kg", "m", "s", UnitOf(Mass), UnitOf(Length), UnitOf(Time));
  }

  /** "1/s" reads as the reciprocal of the second. */
  lemma PerSecond(t: UnitTable)
    requires WellFormed(t) && HasBaseUnits(t)
    ensures ReadUnit(t, "1/s").Ok? && ReadUnit(t, "1/s").value == Factor(1.0, Pow(UnitOf(Time), -1))
  {
    BaseSymbol(t, "s", 1.0, UnitOf(Time));
    assert !IsSymbolChar('/') && !IsSymbolChar('1');
    assert "1/s" == "1/" + "s";
    ReadUnitReciprocal(t, "s");
  }

  /** `Hz` is defined as "1/s", so it resolves to a frequency. */
  lemma HertzResolves(t: UnitTable)
    requires WellFormed(t) && HasBaseUnits(t) && Defines(t, "Hz", Derived(1.0, "1/s"))
    ensures ReadUnit(t, "Hz").Ok? && ReadUnit(t, "Hz").value == Factor(1.0, Pow(UnitOf(Time), -1))
  {
    PerSecond(t);
    DerivedSymbol(t, "Hz", 1.0, "1/s", Factor(1.0, Pow(UnitOf(Time), -1)));
  }

  lemma Kilometre(t: UnitTable)
    requires WellFormed(t) && HasBaseUnits(t) && Defines(t, "km", Derived(1000.0, "m"))
    ensures ReadUnit(t, "km").Ok? && ReadUnit(t, "km").value == Factor(1000.0, UnitOf(Length))
  {
    BaseSymbol(t, "m", 1.0, UnitOf(Length));
    DerivedSymbol(t, "km", 1000.0, "m", Factor(1.0, UnitOf(Length)));
  }

  lemma Centimetre(t: UnitTable)
    requires WellFormed(t) && HasBaseUnits(t) && Defines(t, "cm", Derived(0.01, "m"))
    ensures ReadUnit(t, "cm").Ok? && ReadUnit(t, "cm").value == Factor(0.01, UnitOf(Length))
  {
    BaseSymbol(t, "m", 1.0, UnitOf(Length));
    DerivedSymbol(t, "cm", 0.01, "m", Factor(1.0, UnitOf(Length)));
  }

  /** The entries of the minute and the hour in `unitInformation`. */
  predicate HasHour(t: UnitTable)
  {
    Defines(t, "min", Derived(60.0, "s")) && Defines(t, "hr", Derived(60.0, "min"))
  }

  lemma Minute(t: UnitTable)
    requires WellFormed(t) && HasBaseUnits(t) && HasHour(t)
    ensures ReadUnit(t, "min").Ok? && ReadUnit(t, "min").value == Factor(60.0, UnitOf(Time))
  {
    BaseSymbol(t, "s", 1.0, UnitOf(Time));
    DerivedSymbol(t, "min", 60.0, "s", Factor(1.0, UnitOf(Time)));
  }

  lemma Hour(t: UnitTable)
    requires WellFormed(t) && HasBaseUnits(t) && HasHour(t)
    ensures ReadUnit(t, "hr").Ok? && ReadUnit(t, "hr").value == Factor(3600.0, UnitOf(Time))
  {
    Minute(t);
    DerivedSymbol(t, "hr", 60.0, "min", Factor(60.0, UnitOf(Time)));
  }

  /** A day is 86400 seconds: the chain day -> hr -> min -> s multiplies out. */
  lemma DayResolves(t: UnitTable)
    requires WellFormed(t) && HasBaseUnits(t) && HasHour(t) && Defines(t, "day", Derived(24.0, "hr"))
    ensures ReadUnit(t, "day").Ok? && ReadUnit(t, "day").value == Factor(86400.0, UnitOf(Time))
  {
    Hour(t);
    DerivedSymbol(t, "day", 24.0, "hr", Factor(3600.0, UnitOf(Time)));
  }

  /** Kilometres per hour are 5/18 of a metre per second. */
  lemma KilometresPerHour(t: UnitTable)
    requires WellFormed(t) && HasBaseUnits(t) && HasHour(t) && Defines(t, "km", Derived(1000.0, "m"))
    ensures ReadUnit(t, "km/hr").Ok? && ReadUnit(t, "km/hr").value == Factor(5.0 / 18.0, Div(UnitOf(Length), UnitOf(Time)))
  {
    KilometreOverHour(t);
    ThousandOverThirtySixHundred(UnitOf(Length), UnitOf(Time));
  }

  lemma KilometreOverHour(t: UnitTable)
    requires WellFormed(t) && HasBaseUnits(t) && HasHour(t) && Defines(t, "km", Derived(1000.0, "m"))
    ensures ReadUnit(t, "km/hr") == Ok(Combine(Factor(1000.0, UnitOf(Length)), Invert(Factor(3600.0, UnitOf(Time)))))
  {
    Kilometre(t);
    Hour(t);
    KilometrePerHourText();
    SymbolOverSymbol(t, "km", "hr", Factor(1000.0, UnitOf(Length)), Factor(3600.0, UnitOf(Time)));
  }

  lemma KilometrePerHourText()
    ensures IsSymbol("km") && IsSymbol("hr") && "km/hr" == "km" + "/" + "hr"
  {
  }

  /** Metres per second have multiplier 1. */
  lemma MetresPerSecond(t: UnitTable)
    requires WellFormed(t) && HasBaseUnits(t)
    ensures ReadUnit(t, "m/s").Ok? && ReadUnit(t, "m/s").value == Factor(1.0, Div(UnitOf(Length), UnitOf(Time)))
  {
    BaseUnits(t);
    MetrePerSecondText();
    SymbolOverSymbol(t, "m", "s", Factor(1.0, UnitOf(Length)), Factor(1.0, UnitOf(Time)));
    UnitOverUnit(UnitOf(Length), UnitOf(Time));
  }

  lemma MetrePerSecondText()
    ensures IsSymbol("m") && IsSymbol("s") && "m/s" == "m" + "/" + "s"
  {
  }

  /** "m²" reads exactly as "m^2" does: a square metre. */
  lemma SquareMetre(t: UnitTable)
    requires WellFormed(t) && HasBaseUnits(t)
    ensures ReadUnit(t, "m\U{B2}") == ReadUnit(t, "m^2")
    ensures ReadUnit(t, "m^2").Ok? && ReadUnit(t, "m^2").value == Factor(1.0, Pow(UnitOf(Length), 2))
  {
    SquareMetreTerms();
    ReadUnitTerm(t, "m\U{B2}", "m", 2);
    ReadUnitTerm(t, "m^2", "m", 2);
    BaseEntry(t, "m");
    NatPowOne(2);
  }

  /** `m²` and `m^2` are each the single term `m` to the power 2. */
  lemma SquareMetreTerms()
    ensures '/' !in "m\U{B2}" && '*' !in "m\U{B2}" && !StartsWithOne("m\U{B2}")
    ensures '/' !in "m^2" && '*' !in "m^2" && !StartsWithOne("m^2")
    ensures ReadDimensionTerm("m\U{B2}") == Ok(Term("m", 2))
    ensures ReadDimensionTerm("m^2") == Ok(Term("m", 2))
  {
    assert NatToString(2) == "2" && IntToString(2) == "2";
    assert Superscript("2") == "\U{B2}";
    assert "m\U{B2}" == "m" + Superscript(NatToString(2));
    assert "m^2" == "m" + "^" + IntToString(2);
    SuperscriptTerm("m", 2);
    CaretTerm("m", 2);
    assert !IsSymbolChar('1');
  }

  /** A symbol missing from the table is an unknown unit. */
  lemma UnknownSymbol(t: UnitTable)
    requires WellFormed(t) && "ft" !in t.entries
    ensures ReadUnit(t, "ft") == Err(UnknownUnit("ft"))
  {
    ReadUnitSymbol(t, "ft");
  }

  // ---------------------------------------------------------------------------
  // The sample holds all of these entries
  // ---------------------------------------------------------------------------

  lemma SampleHasBaseUnits()
    ensures HasBaseUnits(Sample)
  {
    MetreEntry();
    KilogramEntry();
    SecondEntry();
  }

  lemma SampleHasHour()
    ensures HasHour(Sample)
  {
    MinuteEntry();
    HourEntry();
  }

  lemma SampleDerivedEntries()
    ensures Defines(Sample, "km", Derived(1000.0, "m")) && Defines(Sample, "cm", Derived(0.01, "m"))
    ensures Defines(Sample, "day", Derived(24.0, "hr"))
    ensures Defines(Sample, "Hz", Derived(1.0, "1/s")) && Defines(Sample, "N", Derived(1.0, "kg*m/s^2"))
  {
    KilometreEntry();
    CentimetreEntry();
    DayEntry();
    HertzEntry();
    NewtonEntry();
  }

  /** The sample has no entry for feet. */
  lemma SampleLacksFeet()
    ensures "ft" !in Sample.entries
  {
    assert "ft" !in SampleSymbols;
  }
}
