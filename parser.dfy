/** The unit-expression reader of Measure.py: `readDimensionTerm`, `readUnit`,
    `getUnitMultiplierAndDimension` and the unit table they consult. */
module UnitParser {
  import opened Failures
  import opened Texts
  import opened Powers
  import opened Dimensions

  /** One term of a unit string: a symbol and the power it is raised to. */
  datatype Term = Term(symbol: string, power: int)

  /** A multiplier to base units together with a dimension, what `readUnit` returns. */
  datatype Factor = Factor(multiplier: real, dimension: Dimension)

  /** The neutral factor `(1, Dimension())` that seeds the fold over terms. */
  const Identity := Factor(1.0, Zero)

  /** The step of the `reduce` in `readUnit`: multipliers multiply, dimensions multiply. */
  function Combine(f: Factor, g: Factor): (r: Factor)
    ensures f.multiplier > 0.0 && g.multiplier > 0.0 ==> r.multiplier > 0.0
  {
    Factor(f.multiplier * g.multiplier, Mul(f.dimension, g.dimension))
  }

  /** `(m**p, d**p)` for one term. */
  function Raise(f: Factor, p: int): (r: Factor)
    requires f.multiplier != 0.0
    ensures r.multiplier != 0.0
    ensures f.multiplier > 0.0 ==> r.multiplier > 0.0
  {
    RealPowSign(f.multiplier, p);
    Factor(RealPow(f.multiplier, p), Pow(f.dimension, p))
  }

  /** `(m*nm, nd)`: a factor with its multiplier scaled by `m`. */
  function Scale(m: real, f: Factor): (r: Factor)
  {
    Factor(m * f.multiplier, f.dimension)
  }

  /** The reciprocal factor: `1/m` and every exponent negated. */
  function Invert(f: Factor): (r: Factor)
    requires f.multiplier != 0.0
  {
    Factor(1.0 / f.multiplier, Pow(f.dimension, -1))
  }

  // ---------------------------------------------------------------------------
  // readDimensionTerm
  // ---------------------------------------------------------------------------

  /** The characters of `[a-zA-Zα-ωΑ-Ω]|°|Å`. */
  predicate IsSymbolChar(c: char)
  {
    ('a' <= c <= 'z') || ('A' <= c <= 'Z') || ('\U{3B1}' <= c <= '\U{3C9}') || ('\U{391}' <= c <= '\U{3A9}')
    || c == '\U{B0}' || c == '\U{C5}'
  }

  predicate IsSymbol(u: string)
  {
    |u| > 0 && forall i :: 0 <= i < |u| ==> IsSymbolChar(u[i])
  }

  /** The length of the longest prefix of `s` made of symbol characters. */
  function SymbolLength(s: string): (n: nat)
    ensures n <= |s|
  {
    if |s| > 0 && IsSymbolChar(s[0]) then 1 + SymbolLength(s[1..]) else 0
  }

  lemma {:induction false} SymbolLengthIsMaximal(s: string)
    ensures SymbolLength(s) <= |s|
    ensures forall i :: 0 <= i < SymbolLength(s) ==> IsSymbolChar(s[i])
    ensures SymbolLength(s) == |s| || !IsSymbolChar(s[SymbolLength(s)])
  {
    if |s| > 0 && IsSymbolChar(s[0]) {
      SymbolLengthIsMaximal(s[1..]);
    }
  }

  /** The symbol run of a symbol followed by a non-symbol character is that symbol. */
  lemma {:induction false} SymbolLengthOf(u: string, rest: string)
    requires forall i :: 0 <= i < |u| ==> IsSymbolChar(u[i])
    requires rest == [] || !IsSymbolChar(rest[0])
    ensures SymbolLength(u + rest) == |u|
  {
    if |u| > 0 {
      SymbolLengthOf(u[1..], rest);
      assert (u + rest)[1..] == u[1..] + rest;
    }
  }

  /** `unitPowerReplacements`: superscript digit glyphs to ASCII digits. */
  const UnitPowerReplacements: map<char, char> := map[
    '\U{2070}' := '0', '\U{B9}' := '1', '\U{B2}' := '2', '\U{B3}' := '3', '\U{2074}' := '4',
    '\U{2075}' := '5', '\U{2076}' := '6', '\U{2077}' := '7', '\U{2078}' := '8', '\U{2079}' := '9']

  /** The superscript glyph of each digit value, the inverse of UnitPowerReplacements. */
  const SuperscriptGlyphs: seq<char> := [
    '\U{2070}', '\U{B9}', '\U{B2}', '\U{B3}', '\U{2074}', '\U{2075}', '\U{2076}', '\U{2077}', '\U{2078}', '\U{2079}']

  /** `"".join([unitPowerReplacements[c] for c in s])`; None where a KeyError is raised. */
  function Unsuperscript(s: string): (r: Option<string>)
    ensures r.Some? ==> |r.value| == |s| && AllDigits(r.value)
  {
    if s == [] then Some([])
    else if s[0] !in UnitPowerReplacements then None
    else match Unsuperscript(s[1..])
      case None => None
      case Some(rest) => Some([UnitPowerReplacements[s[0]]] + rest)
  }

  /** Writes a run of ASCII digits as superscript glyphs. */
  function Superscript(digits: string): (r: string)
    requires AllDigits(digits)
    ensures |r| == |digits|
  {
    if digits == [] then [] else [SuperscriptGlyphs[DigitValue(digits[0])]] + Superscript(digits[1..])
  }

  lemma {:induction false} UnsuperscriptSuperscript(digits: string)
    requires AllDigits(digits)
    ensures Unsuperscript(Superscript(digits)) == Some(digits)
  {
    if digits != [] {
      var s := Superscript(digits);
      var k := DigitValue(digits[0]);
      assert UnitPowerReplacements[SuperscriptGlyphs[k]] == DigitChar(k);
      assert s[0] == SuperscriptGlyphs[k] && s[0] in UnitPowerReplacements;
      UnsuperscriptSuperscript(digits[1..]);
      assert s[1..] == Superscript(digits[1..]);
      assert digits == [DigitChar(k)] + digits[1..];
    }
  }

  /** `readDimensionTerm`: splits a term into its symbol, the maximal leading run of
      symbol characters, and the power written after it. */
  function ReadDimensionTerm(term: string): (r: Result<Term>)
    ensures r.Err? ==> r.error.MalformedTerm? || r.error.BadExponent?
  {
    var n := SymbolLength(term);
    if n == 0 then Err(MalformedTerm(term))
    else
      var unit, rest := term[..n], term[n..];
      if rest == [] then Ok(Term(unit, 1))
      else if rest[0] == '^' then
        match ParseInt(StripLeading(rest, '^'))
        case Some(p) => Ok(Term(unit, p))
        case None => Err(BadExponent(rest))
      else
        match Unsuperscript(rest)
        case Some(digits) => Ok(Term(unit, DigitsValue(digits)))
        case None => Err(BadExponent(rest))
  }

  /** The symbol read from a term is its maximal leading run of symbol characters,
      and the symbol followed by the rest of the term is the term; a term with no
      such run is malformed. */
  lemma ReadDimensionTermSplits(term: string)
    ensures var r := ReadDimensionTerm(term);
      r.Ok? ==> var u := r.value.symbol;
        && IsSymbol(u) && |u| <= |term| && u + term[|u|..] == term
        && (|u| == |term| || !IsSymbolChar(term[|u|]))
    ensures var r := ReadDimensionTerm(term);
      (r.Err? && r.error.MalformedTerm?) <==> term == [] || !IsSymbolChar(term[0])
  {
    SymbolLengthIsMaximal(term);
    var n := SymbolLength(term);
    assert term == term[..n] + term[n..];
  }

  /** A bare symbol is a term with power 1. */
  lemma BareSymbolTerm(u: string)
    requires IsSymbol(u)
    ensures ReadDimensionTerm(u) == Ok(Term(u, 1))
  {
    SymbolLengthOf(u, []);
    assert u + [] == u;
  }

  /** `sym^k` reads back as `(sym, k)` for every integer `k` written by `str`. */
  lemma CaretTerm(u: string, k: int)
    requires IsSymbol(u)
    ensures ReadDimensionTerm(u + "^" + IntToString(k)) == Ok(Term(u, k))
  {
    var digits := IntToString(k);
    var rest := "^" + digits;
    var term := u + rest;
    assert u + "^" + digits == term;
    SymbolLengthOf(u, rest);
    assert term[..|u|] == u && term[|u|..] == rest;
    assert StripLeading(rest, '^') == digits by {
      assert rest[1..] == digits;
      assert digits[0] == '-' || IsDigit(digits[0]);
    }
    IntToStringParses(k);
  }

  /** Superscript digits give the same term as the caret form: `m²` reads as `m^2`. */
  lemma SuperscriptTerm(u: string, n: nat)
    requires IsSymbol(u)
    ensures ReadDimensionTerm(u + Superscript(NatToString(n))) == Ok(Term(u, n))
    ensures ReadDimensionTerm(u + Superscript(NatToString(n))) == ReadDimensionTerm(u + "^" + IntToString(n))
  {
    var digits := NatToString(n);
    var sup := Superscript(digits);
    var term := u + sup;
    assert sup[0] == SuperscriptGlyphs[DigitValue(digits[0])];
    SymbolLengthOf(u, sup);
    assert term[..|u|] == u && term[|u|..] == sup;
    UnsuperscriptSuperscript(digits);
    CaretTerm(u, n);
  }

  /** After the symbol, any character that is neither `^` nor a superscript digit
      makes the term fail. */
  lemma StrayCharacterFails(u: string, rest: string, i: nat)
    requires IsSymbol(u)
    requires i < |rest| && rest[0] != '^' && !IsSymbolChar(rest[0])
    requires rest[i] !in UnitPowerReplacements
    ensures ReadDimensionTerm(u + rest) == Err(BadExponent(rest))
  {
    SymbolLengthOf(u, rest);
    var term := u + rest;
    assert term[..|u|] == u && term[|u|..] == rest;
    UnsuperscriptFails(rest, i);
  }

  lemma {:induction false} UnsuperscriptFails(s: string, i: nat)
    requires i < |s| && s[i] !in UnitPowerReplacements
    ensures Unsuperscript(s) == None
  {
    if i > 0 && s[0] in UnitPowerReplacements {
      UnsuperscriptFails(s[1..], i - 1);
    }
  }

  // ---------------------------------------------------------------------------
  // readUnit: splitting a unit string into terms
  // ---------------------------------------------------------------------------

  /** `[readDimensionTerm(term) for term in terms]`, failing at the first bad term. */
  function ReadTerms(terms: seq<string>): (r: Result<seq<Term>>)
    ensures r.Ok? ==> |r.value| == |terms|
    ensures r.Err? ==> r.error.MalformedTerm? || r.error.BadExponent?

  {
    if terms == [] then Ok([])
    else
      var first :- ReadDimensionTerm(terms[0]);
      var rest :- ReadTerms(terms[1..]);
      Ok([first] + rest)
  }

  /** `[(u, -p) for (u, p) in bottomUnits]`. */
  function Negated(terms: seq<Term>): (r: seq<Term>)
    ensures |r| == |terms|
  {
    if terms == [] then [] else [Term(terms[0].symbol, -terms[0].power)] + Negated(terms[1..])
  }

  lemma {:induction false} NegatedAt(terms: seq<Term>, i: nat)
    requires i < |terms|
    ensures Negated(terms)[i] == Term(terms[i].symbol, -terms[i].power)
  {
    if i > 0 {
      NegatedAt(terms[1..], i - 1);
    }
  }

  /** `unitString.startswith("1")`. */
  predicate StartsWithOne(s: string)
  {
    |s| > 0 && s[0] == '1'
  }

  /** The term strings of the numerator: none when the whole string starts with "1". */
  function TopTermStrings(s: string): seq<string>
  {
    if StartsWithOne(s) then [] else Split(Split(s, '/')[0], '*')
  }

  /** The term strings of the denominator: only when there is exactly one `/`. */
  function BottomTermStrings(s: string): seq<string>
  {
    var sides := Split(s, '/');
    if |sides| == 2 then Split(sides[1], '*') else []
  }

  /** The terms `readUnit` resolves: the numerator's, then the denominator's with their powers negated. */
  function UnitTerms(s: string): (r: Result<seq<Term>>)
    ensures r.Err? ==> r.error.MalformedTerm? || r.error.BadExponent?
  {
    var top :- ReadTerms(TopTermStrings(s));
    var bottom :- ReadTerms(BottomTermStrings(s));
    Ok(top + Negated(bottom))
  }

  // ---------------------------------------------------------------------------
  // The unit table and the recursive resolution
  // ---------------------------------------------------------------------------

  /** A `unitInformation` value: a multiplier with either a dimension or a reference unit string. */
  datatype Entry = Base(multiplier: real, dimension: Dimension) | Derived(multiplier: real, reference: string)

  /** `unitInformation`, with a rank per symbol below `height` that orders the references. */
  datatype UnitTable = UnitTable(entries: map<string, Entry>, rank: map<string, nat>, height: nat)

  /** Every term whose symbol is in the table has a rank below `bound`. */
  predicate RankedBelow(t: UnitTable, terms: seq<Term>, bound: nat)
  {
    forall i :: 0 <= i < |terms| && terms[i].symbol in t.entries ==>
      terms[i].symbol in t.rank && t.rank[terms[i].symbol] < bound
  }

  predicate ReferencesBelow(t: UnitTable, s: string, bound: nat)
  {
    UnitTerms(s).Ok? ==> RankedBelow(t, UnitTerms(s).value, bound)
  }

  /** The table has no reference cycles: every symbol a derived entry refers to ranks
      below that entry; and every multiplier is positive. */
  predicate WellFormed(t: UnitTable)
  {
    && t.entries.Keys == t.rank.Keys
    && (forall u :: u in t.rank ==> t.rank[u] < t.height)
    && (forall u :: u in t.entries ==> t.entries[u].multiplier > 0.0)
    && (forall u :: u in t.entries && t.entries[u].Derived? ==>
          u in t.rank && ReferencesBelow(t, t.entries[u].reference, t.rank[u]))
  }

  /** Resolution fails only on a malformed term, a bad exponent, or a symbol absent from the table. */
  predicate ResolutionError(t: UnitTable, r: Result<Factor>)
  {
    r.Err? ==>
      match r.error
      case MalformedTerm(_) => true
      case BadExponent(_) => true
      case UnknownUnit(u) => u !in t.entries
      case _ => false
  }

  /** The termination measure of a symbol: one above its rank, 0 when absent. */
  function Level(t: UnitTable, u: string): nat
  {
    if u in t.rank then t.rank[u] + 1 else 0
  }

  /** `getUnitMultiplierAndDimension`: looks a symbol up, and resolves a reference
      entry through `readUnit`, scaling the result by the entry's multiplier. */
  function GetUnitMultiplierAndDimension(t: UnitTable, symbol: string): (r: Result<Factor>)
    requires WellFormed(t)
    ensures r.Ok? ==> r.value.multiplier > 0.0
    ensures ResolutionError(t, r)
    ensures symbol !in t.entries ==> r == Err(UnknownUnit(symbol))
    decreases Level(t, symbol), 2, 0
  {
    if symbol !in t.entries then Err(UnknownUnit(symbol))
    else match t.entries[symbol]
      case Base(m, d) => Ok(Factor(m, d))
      case Derived(m, ref) =>
        assert ReferencesBelow(t, ref, t.rank[symbol]);
        match ReadUnitBelow(t, ref, t.rank[symbol])
        case Err(e) => Err(e)
        case Ok(f) => Ok(Scale(m, f))
  }

  /** `readUnit` under a termination bound that every table symbol of `s` ranks below. */
  function ReadUnitBelow(t: UnitTable, s: string, bound: nat): (r: Result<Factor>)
    requires WellFormed(t) && ReferencesBelow(t, s, bound)
    ensures r.Ok? ==> r.value.multiplier > 0.0
    ensures ResolutionError(t, r)
    decreases bound + 1, 1, 0
  {
    match UnitTerms(s)
    case Err(e) => Err(e)
    case Ok(terms) => FoldTerms(t, terms, bound)
  }

  /** `reduce` of `(m**p, d**p)` over the terms, from the left, seeded with Identity. */
  function FoldTerms(t: UnitTable, terms: seq<Term>, bound: nat): (r: Result<Factor>)
    requires WellFormed(t) && RankedBelow(t, terms, bound)
    ensures r.Ok? ==> r.value.multiplier > 0.0
    ensures ResolutionError(t, r)
    decreases bound + 1, 0, |terms|
  {
    if terms == [] then Ok(Identity)
    else
      var last := terms[|terms| - 1];
      var acc :- FoldTerms(t, terms[..|terms| - 1], bound);
      var f :- GetUnitMultiplierAndDimension(t, last.symbol);
      Ok(Combine(acc, Raise(f, last.power)))
  }

  /** `readUnit`: the multiplier to base units and the dimension of a unit string. */
  function ReadUnit(t: UnitTable, s: string): (r: Result<Factor>)
    requires WellFormed(t)
    ensures r.Ok? ==> r.value.multiplier > 0.0
    ensures ResolutionError(t, r)
  {
    ReadUnitBelow(t, s, t.height)
  }
}
