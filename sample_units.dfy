/** A representative slice of `unitInformation` in Measure.py, and what `readUnit`
    makes of a few unit strings over it. */
module SampleUnits {
  import opened Failures
  import opened Texts
  import opened Dimensions
  import opened UnitParser
  import opened ResolutionLaws

  /** The symbols of the sample: the eight base units, two prefixed lengths, the gram,
      the minute-hour-day chain, hertz and newton. */
  const SampleSymbols: set<string> :=
    {"m", "kg", "s", "A", "K", "mol", "cd", "rad", "km", "cm", "g", "min", "hr", "day", "Hz", "N"}

  /** The `unitInformation` entry of each sample symbol. */
  function SampleEntry(u: string): Entry
  {
    if u == "m" then Base(1.0, UnitOf(Length))
    else if u == "kg" then Base(1.0, UnitOf(Mass))
    else if u == "s" then Base(1.0, UnitOf(Time))
    else if u == "A" then Base(1.0, UnitOf(Current))
    else if u == "K" then Base(1.0, UnitOf(Temperature))
    else if u == "mol" then Base(1.0, UnitOf(AmountOfSubstance))
    else if u == "cd" then Base(1.0, UnitOf(LuminousIntensity))
    else if u == "rad" then Base(1.0, UnitOf(Angle))
    else if u == "km" then Derived(1000.0, "m")
    else if u == "cm" then Derived(0.01, "m")
    else if u == "g" then Derived(0.001, "kg")
    else if u == "min" then Derived(60.0, "s")
    else if u == "hr" then Derived(60.0, "min")
    else if u == "day" then Derived(24.0, "hr")
    else if u == "Hz" then Derived(1.0, "1/s")
    else Derived(1.0, "kg*m/s^2")
  }

  /** How deep each sample symbol's references go. */
  function SampleRank(u: string): nat
  {
    if u == "day" then 3
    else if u == "hr" then 2
    else if u in {"km", "cm", "g", "min", "Hz", "N"} then 1
    else 0
  }

  const Sample := UnitTable(
    map u | u in SampleSymbols :: SampleEntry(u),
    map u | u in SampleSymbols :: SampleRank(u),
    4)

  // ---------------------------------------------------------------------------
  // The terms of the reference strings
  // ---------------------------------------------------------------------------

  lemma SymbolTerms(u: string)
    requires IsSymbol(u)
    ensures UnitTerms(u) == Ok([Term(u, 1)])
  {
    assert !IsSymbolChar('/') && !IsSymbolChar('*');
    assert '/' !in u && '*' !in u;
    BareSymbolTerm(u);
    UnitTermsOfTerm(u, u, 1);
  }

  lemma HertzTerms()
    ensures UnitTerms("1/s").Ok? && UnitTerms("1/s").value == [Term("s", -1)]
  {
    UnitTermsReciprocal("s");
    assert Split("s", '*') == ["s"];
    BareSymbolTerm("s");
    ReadTermsSingle("s", Term("s", 1));
    NegatedSingle([Term("s", 1)]);
  }

  /** The terms of `a*b` for symbols `a` and `b`. */
  lemma ProductTerms(a: string, b: string)
    requires IsSymbol(a) && IsSymbol(b)
    ensures '/' !in a + "*" + b && !StartsWithOne(a + "*" + b)
    ensures ReadTerms(Split(a + "*" + b, '*')).Ok?
    ensures ReadTerms(Split(a + "*" + b, '*')).value == [Term(a, 1), Term(b, 1)]
  {
    assert !IsSymbolChar('/') && !IsSymbolChar('*') && !IsSymbolChar('1');
    assert '/' !in a && '*' !in a && '/' !in b && '*' !in b;
    var top := a + "*" + b;
    assert top[0] == a[0];
    assert top == a + ['*'] + b;
    SplitAfter(a, '*', b);
    assert Split(b, '*') == [b];
    BareSymbolTerm(a);
    BareSymbolTerm(b);
    ReadTermsSingle(a, Term(a, 1));
    ReadTermsSingle(b, Term(b, 1));
    ReadTermsAppend([a], [b]);
    assert [a] + [b] == [a, b];
    assert [Term(a, 1)] + [Term(b, 1)] == [Term(a, 1), Term(b, 1)];
  }

  /** The terms of `c^k` for a symbol `c`. */
  lemma PowerTerms(c: string, k: int)
    requires IsSymbol(c)
    ensures '/' !in c + "^" + IntToString(k)
    ensures ReadTerms(Split(c + "^" + IntToString(k), '*')) == Ok([Term(c, k)])
  {
    assert !IsSymbolChar('/') && !IsSymbolChar('*');
    var power := c + "^" + IntToString(k);
    IntToStringChars(k);
    assert '/' !in power && '*' !in power by {
      assert power == c + ['^'] + IntToString(k);
    }
    assert Split(power, '*') == [power];
    CaretTerm(c, k);
    ReadTermsSingle(power, Term(c, k));
  }

  /** The terms of `top/power` when `power` reads as a single term. */
  lemma QuotientOfOneTerm(top: string, power: string, rt: seq<Term>, u: string, p: int)
    requires '/' !in top && '/' !in power && !StartsWithOne(top)
    requires ReadTerms(Split(top, '*')).Ok? && ReadTerms(Split(top, '*')).value == rt
    requires ReadTerms(Split(power, '*')).Ok? && ReadTerms(Split(power, '*')).value == [Term(u, p)]
    ensures UnitTerms(top + "/" + power).Ok?
    ensures UnitTerms(top + "/" + power).value == rt + [Term(u, -p)]
  {
    UnitTermsQuotient(top, power);
    AppendNegatedSingle(rt, u, p);
  }

  lemma AppendNegatedSingle(rt: seq<Term>, u: string, p: int)
    ensures rt + Negated([Term(u, p)]) == rt + [Term(u, -p)]
  {
    NegatedSingle([Term(u, p)]);
  }

  /** The terms of `a*b/c^k` for symbols `a`, `b` and `c`. */
  lemma ProductOverPowerTerms(a: string, b: string, c: string, k: int)
    requires IsSymbol(a) && IsSymbol(b) && IsSymbol(c)
    ensures UnitTerms((a + "*" + b) + "/" + (c + "^" + IntToString(k))).Ok?
    ensures UnitTerms((a + "*" + b) + "/" + (c + "^" + IntToString(k))).value == [Term(a, 1), Term(b, 1), Term(c, -k)]
  {
    var top, power := a + "*" + b, c + "^" + IntToString(k);
    ProductTerms(a, b);
    PowerTerms(c, k);
    QuotientOfOneTerm(top, power, [Term(a, 1), Term(b, 1)], c, k);
    AppendThird(Term(a, 1), Term(b, 1), Term(c, -k));
  }

  lemma AppendThird(x: Term, y: Term, z: Term)
    ensures [x, y] + [z] == [x, y, z]
  {
  }

  lemma NewtonTerms()
    ensures UnitTerms("kg*m/s^2").Ok? && UnitTerms("kg*m/s^2").value == [Term("kg", 1), Term("m", 1), Term("s", -2)]
  {
    assert IntToString(2) == "2";
    assert "kg*m/s^2" == ("kg" + "*" + "m") + "/" + ("s" + "^" + IntToString(2));
    ProductOverPowerTerms("kg", "m", "s", 2);
  }

  lemma SymbolBelow(u: string, bound: nat)
    requires IsSymbol(u) && u in Sample.rank && Sample.rank[u] < bound
    ensures ReferencesBelow(Sample, u, bound)
  {
    SymbolTerms(u);
  }

  lemma HertzBelow()
    ensures ReferencesBelow(Sample, "1/s", 1)
  {
    HertzTerms();
    assert Sample.rank["s"] == 0;
  }

  lemma BaseRanks()
    ensures "kg" in Sample.rank && Sample.rank["kg"] == 0
    ensures "m" in Sample.rank && Sample.rank["m"] == 0
    ensures "s" in Sample.rank && Sample.rank["s"] == 0
  {
  }

  lemma RankedBelowThree(t: UnitTable, x: Term, y: Term, z: Term, bound: nat)
    requires x.symbol in t.rank && t.rank[x.symbol] < bound
    requires y.symbol in t.rank && t.rank[y.symbol] < bound
    requires z.symbol in t.rank && t.rank[z.symbol] < bound
    ensures RankedBelow(t, [x, y, z], bound)
  {
  }

  lemma NewtonBelow()
    ensures ReferencesBelow(Sample, "kg*m/s^2", 1)
  {
    NewtonTerms();
    BaseRanks();
    RankedBelowThree(Sample, Term("kg", 1), Term("m", 1), Term("s", -2), 1);
  }

  lemma SampleMultipliersPositive()
    ensures forall u :: u in Sample.entries ==> Sample.entries[u].multiplier > 0.0
  {
    forall u | u in Sample.entries
      ensures Sample.entries[u].multiplier > 0.0
    {
      assert Sample.entries[u] == SampleEntry(u);
    }
  }

  lemma MetreEntry()
    ensures "m" in Sample.entries && Sample.entries["m"] == Base(1.0, UnitOf(Length))
  {
    assert SampleEntry("m") == Base(1.0, UnitOf(Length));
  }

  lemma KilogramEntry()
    ensures "kg" in Sample.entries && Sample.entries["kg"] == Base(1.0, UnitOf(Mass))
  {
    assert SampleEntry("kg") == Base(1.0, UnitOf(Mass));
  }

  lemma SecondEntry()
    ensures "s" in Sample.entries && Sample.entries["s"] == Base(1.0, UnitOf(Time))
  {
    assert SampleEntry("s") == Base(1.0, UnitOf(Time));
  }

  lemma KilometreEntry()
    ensures "km" in Sample.entries && Sample.entries["km"] == Derived(1000.0, "m")
    ensures "km" in Sample.rank && Sample.rank["km"] == 1
  {
    assert SampleEntry("km") == Derived(1000.0, "m");
    assert SampleRank("km") == 1;
  }

  lemma KilometreEntryBelow()
    ensures ReferencesBelow(Sample, Sample.entries["km"].reference, Sample.rank["km"])
  {
    KilometreEntry();
    SymbolBelow("m", 1);
  }

  lemma CentimetreEntry()
    ensures "cm" in Sample.entries && Sample.entries["cm"] == Derived(0.01, "m")
    ensures "cm" in Sample.rank && Sample.rank["cm"] == 1
  {
    assert SampleEntry("cm") == Derived(0.01, "m");
    assert SampleRank("cm") == 1;
  }

  lemma CentimetreEntryBelow()
    ensures ReferencesBelow(Sample, Sample.entries["cm"].reference, Sample.rank["cm"])
  {
    CentimetreEntry();
    SymbolBelow("m", 1);
  }

  lemma GramEntry()
    ensures "g" in Sample.entries && Sample.entries["g"] == Derived(0.001, "kg")
    ensures "g" in Sample.rank && Sample.rank["g"] == 1
  {
    assert SampleEntry("g") == Derived(0.001, "kg");
    assert SampleRank("g") == 1;
  }

  lemma GramEntryBelow()
    ensures ReferencesBelow(Sample, Sample.entries["g"].reference, Sample.rank["g"])
  {
    GramEntry();
    SymbolBelow("kg", 1);
  }

  lemma MinuteEntry()
    ensures "min" in Sample.entries && Sample.entries["min"] == Derived(60.0, "s")
    ensures "min" in Sample.rank && Sample.rank["min"] == 1
  {
    assert SampleEntry("min") == Derived(60.0, "s");
    assert SampleRank("min") == 1;
  }

  lemma MinuteEntryBelow()
    ensures ReferencesBelow(Sample, Sample.entries["min"].reference, Sample.rank["min"])
  {
    MinuteEntry();
    SymbolBelow("s", 1);
  }

  lemma HourEntry()
    ensures "hr" in Sample.entries && Sample.entries["hr"] == Derived(60.0, "min")
    ensures "hr" in Sample.rank && Sample.rank["hr"] == 2
  {
    assert SampleEntry("hr") == Derived(60.0, "min");
    assert SampleRank("hr") == 2;
  }

  lemma HourEntryBelow()
    ensures ReferencesBelow(Sample, Sample.entries["hr"].reference, Sample.rank["hr"])
  {
    HourEntry();
    SymbolBelow("min", 2);
  }

  lemma DayEntry()
    ensures "day" in Sample.entries && Sample.entries["day"] == Derived(24.0, "hr")
    ensures "day" in Sample.rank && Sample.rank["day"] == 3
  {
    assert SampleEntry("day") == Derived(24.0, "hr");
    assert SampleRank("day") == 3;
  }

  lemma DayEntryBelow()
    ensures ReferencesBelow(Sample, Sample.entries["day"].reference, Sample.rank["day"])
  {
    DayEntry();
    SymbolBelow("hr", 3);
  }

  lemma HertzEntry()
    ensures "Hz" in Sample.entries && Sample.entries["Hz"] == Derived(1.0, "1/s")
    ensures "Hz" in Sample.rank && Sample.rank["Hz"] == 1
  {
    assert SampleEntry("Hz") == Derived(1.0, "1/s");
    assert SampleRank("Hz") == 1;
  }

  lemma HertzEntryBelow()
    ensures ReferencesBelow(Sample, Sample.entries["Hz"].reference, Sample.rank["Hz"])
  {
    HertzEntry();
    HertzBelow();
  }

  lemma NewtonEntry()
    ensures "N" in Sample.entries && Sample.entries["N"] == Derived(1.0, "kg*m/s^2")
    ensures "N" in Sample.rank && Sample.rank["N"] == 1
  {
    assert SampleEntry("N") == Derived(1.0, "kg*m/s^2");
    assert SampleRank("N") == 1;
  }

  lemma NewtonEntryBelow()
    ensures ReferencesBelow(Sample, Sample.entries["N"].reference, Sample.rank["N"])
  {
    NewtonEntry();
    NewtonBelow();
  }

  /** The derived symbols of the sample. */
  lemma DerivedSymbols(u: string)
    requires u in Sample.entries && Sample.entries[u].Derived?
    ensures u in {"km", "cm", "g", "min", "hr", "day", "Hz", "N"}
  {
    assert u in SampleSymbols && Sample.entries[u] == SampleEntry(u);
  }

  lemma SampleReferencesBelow()
    ensures forall u :: u in Sample.entries && Sample.entries[u].Derived? ==>
      u in Sample.rank && ReferencesBelow(Sample, Sample.entries[u].reference, Sample.rank[u])
  {
    forall u | u in Sample.entries && Sample.entries[u].Derived?
      ensures u in Sample.rank && ReferencesBelow(Sample, Sample.entries[u].reference, Sample.rank[u])
    {
      DerivedSymbols(u);
      if u == "km" {
        KilometreEntryBelow();
      } else if u == "cm" {
        CentimetreEntryBelow();
      } else if u == "g" {
        GramEntryBelow();
      } else if u == "min" {
        MinuteEntryBelow();
      } else if u == "hr" {
        HourEntryBelow();
      } else if u == "day" {
        DayEntryBelow();
      } else if u == "Hz" {
        HertzEntryBelow();
      } else {
        NewtonEntryBelow();
      }
    }
  }

  /** Every reference in the sample ranks below the entry that makes it, so the
      sample has no reference cycle. */
  lemma SampleWellFormed()
    ensures WellFormed(Sample)
  {
    SampleMultipliersPositive();
    SampleReferencesBelow();
  }
}
