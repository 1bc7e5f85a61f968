/** Measures built from unit strings, over any table that holds the entries used and
    over the sample of `unitInformation`. */
module MeasureExamples {
  import opened Failures
  import opened Dimensions
  import opened UnitParser
  import opened SampleUnits
  import opened SampleResolutions
  import opened Quantities
  import opened Measures

  /** A metre and a second have different dimensions. */
  lemma LengthIsNotTime()
    ensures UnitOf(Length) != UnitOf(Time)
  {
    UnitOfAxes(Length);
    UnitOfAxes(Time);
    assert Get(UnitOf(Length), Length) != Get(UnitOf(Time), Length);
  }

  /** `Measure(1, 'm') + Measure(100, 'cm') == Measure(2, 'm')`. */
  lemma MetrePlusCentimetres(t: UnitTable)
    requires WellFormed(t) && HasBaseUnits(t) && Defines(t, "cm", Derived(0.01, "m"))
    ensures FromUnit(t, 1.0, "m") == Ok(Quantity(1.0, UnitOf(Length)))
    ensures FromUnit(t, 100.0, "cm") == Ok(Quantity(1.0, UnitOf(Length)))
    ensures Sum(FromUnit(t, 1.0, "m").value, FromUnit(t, 100.0, "cm").value) == FromUnit(t, 2.0, "m")
  {
    BaseUnits(t);
    Centimetre(t);
  }

  /** `Measure(36, 'km/hr')['m/s']` is 10. */
  lemma SpeedInMetresPerSecond(t: UnitTable)
    requires WellFormed(t) && HasBaseUnits(t) && HasHour(t) && Defines(t, "km", Derived(1000.0, "m"))
    ensures FromUnit(t, 36.0, "km/hr") == Ok(Quantity(10.0, Div(UnitOf(Length), UnitOf(Time))))
    ensures ValueInChecked(FromUnit(t, 36.0, "km/hr").value, t, "m/s") == Ok(10.0)
  {
    KilometresPerHour(t);
    MetresPerSecond(t);
  }

  /** `measure[unit]` as written reads a metre in seconds as 1; with the dimension check
      the same reading is a mismatch. */
  lemma MetreReadInSeconds(t: UnitTable)
    requires WellFormed(t) && HasBaseUnits(t)
    ensures ValueIn(Quantity(1.0, UnitOf(Length)), t, "s") == Ok(1.0)
    ensures ValueInChecked(Quantity(1.0, UnitOf(Length)), t, "s") == Err(DimensionMismatch)
  {
    BaseUnits(t);
    LengthIsNotTime();
  }

  /** Over the sample of `unitInformation`: a metre and a hundred centimetres make two metres. */
  lemma SampleMetrePlusCentimetres()
    ensures WellFormed(Sample)
    ensures FromUnit(Sample, 1.0, "m") == Ok(Quantity(1.0, UnitOf(Length)))
    ensures FromUnit(Sample, 100.0, "cm") == Ok(Quantity(1.0, UnitOf(Length)))
    ensures Sum(Quantity(1.0, UnitOf(Length)), Quantity(1.0, UnitOf(Length))) == FromUnit(Sample, 2.0, "m")
  {
    SampleWellFormed();
    SampleHasBaseUnits();
    SampleDerivedEntries();
    MetrePlusCentimetres(Sample);
  }

  /** Over the sample of `unitInformation`: 36 km/hr is 10 m/s. */
  lemma SampleSpeed()
    ensures WellFormed(Sample)
    ensures FromUnit(Sample, 36.0, "km/hr") == Ok(Quantity(10.0, Div(UnitOf(Length), UnitOf(Time))))
    ensures ValueInChecked(Quantity(10.0, Div(UnitOf(Length), UnitOf(Time))), Sample, "m/s") == Ok(10.0)
  {
    SampleWellFormed();
    SampleHasBaseUnits();
    SampleHasHour();
    SampleDerivedEntries();
    SpeedInMetresPerSecond(Sample);
  }

  /** Over the sample of `unitInformation`: a metre reads as 1 in seconds. */
  lemma SampleMetreInSeconds()
    ensures WellFormed(Sample)
    ensures ValueIn(Quantity(1.0, UnitOf(Length)), Sample, "s") == Ok(1.0)
  {
    SampleWellFormed();
    SampleHasBaseUnits();
    MetreReadInSeconds(Sample);
  }

  /** `m = Measure(1, 'm'); m += Measure(100, 'cm')` leaves two metres in `m`. */
  method AddCentimetresInPlace() returns (r: Outcome, total: Quantity)
    ensures r == Pass && total == Quantity(2.0, UnitOf(Length))
  {
    SampleWellFormed();
    SampleHasBaseUnits();
    SampleDerivedEntries();
    MetrePlusCentimetres(Sample);
    var a := Measure.FromUnitString(Sample, 1.0, "m");
    var b := Measure.FromUnitString(Sample, 100.0, "cm");
    var m, n := a.value, b.value;
    r := m.AddInPlace(n);
    total := m.State();
  }
}
