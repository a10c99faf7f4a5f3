/** The detail panel's derived text and marks (App.tsx): the year label under
    the entity's name and the five impact dots. */
module AppPanel {

  import opened Types
  import opened Calendar

  const EnDash: string := "\U{2013}"

  // ---- Year label ----

  /** `{endYear && ` – ${endYear} CE`}` as rendered: nothing when there is no
      end year, the literal "0" when it is 0 (a falsy number is rendered), and
      otherwise the number followed by "CE" whatever its sign. */
  function EndYearSuffix(endYear: Option<int>): string
  {
    match endYear
    case None => ""
    case Some(e) => if e == 0 then "0" else " " + EnDash + " " + IntToString(e) + " CE"
  }

  /** The year label as the panel renders it. */
  function YearLabel(year: int, endYear: Option<int>): (s: string)
    ensures endYear == None ==> s == EraLabel(year)
    ensures endYear.Some? ==> |s| > |EraLabel(year)|
  {
    EraLabel(year) + EndYearSuffix(endYear)
  }

  /** The start year uses "BCE" exactly when it is negative, and a present,
      non-zero end year always uses "CE". */
  lemma YearLabelShape(year: int, endYear: Option<int>)
    ensures endYear == None ==> YearLabel(year, endYear) == EraLabel(year)
    ensures NumberSet(endYear) ==>
      var s := YearLabel(year, endYear);
      |s| >= 3 && s[|s| - 3..] == " CE"
    ensures var s := EraLabel(year); |s| >= 4 && (s[|s| - 4..] == " BCE" <==> year < 0)
    ensures YearLabel(year, endYear)[..|EraLabel(year)|] == EraLabel(year)
  {
    EraLabelBce(year);
  }

  /** As written, an end year of 0 appends a bare "0" to the label. */
  lemma YearLabelZeroEndYear()
    ensures YearLabel(-500, Some(0)) == "500 BCE0"
  {
    assert NatToString(500) == "500" by {
      assert NatToString(50) == "50";
    }
  }

  /** As written, a BCE end year is printed as a negative CE year. */
  lemma YearLabelNegativeEndYear()
    ensures YearLabel(-563, Some(-483)) == "563 BCE " + EnDash + " -483 CE"
  {
    assert NatToString(563) == "563" by {
      assert NatToString(56) == "56";
    }
    assert NatToString(483) == "483" by {
      assert NatToString(48) == "48";
    }
  }

  /** The label the panel evidently means: the end year, when present, is
      written in the same era notation as the start year. */
  function YearRangeLabel(year: int, endYear: Option<int>): string
  {
    match endYear
    case None => EraLabel(year)
    case Some(e) => EraLabel(year) + " " + EnDash + " " + EraLabel(e)
  }

  /** The intended label agrees with the rendered one whenever the end year is
      absent or a positive CE year. */
  lemma YearRangeLabelAgrees(year: int, endYear: Option<int>)
    requires endYear == None || endYear.value > 0
    ensures YearRangeLabel(year, endYear) == YearLabel(year, endYear)
  {
    if endYear.Some? {
      var e := endYear.value;
      var a, m, t := EraLabel(year), " " + EnDash + " ", NatToString(e) + " CE";
      assert EraLabel(e) == t;
      assert EndYearSuffix(endYear) == m + t by {
        assert IntToString(e) == NatToString(e);
      }
      StringConcatAssoc(a, m, t);
    }
  }

  lemma StringConcatAssoc(a: string, m: string, t: string)
    ensures a + m + t == a + (m + t)
  {
  }

  /** The intended label's suffix reads back as the end year. */
  lemma YearRangeLabelSuffix(year: int, e: int)
    ensures var s := YearRangeLabel(year, Some(e));
      var p := |EraLabel(year)| + 3;
      && |s| > p
      && s[..p] == EraLabel(year) + " " + EnDash + " "
      && ParseEraLabel(s[p..]) == Some(e)
  {
    var s := YearRangeLabel(year, Some(e));
    var p := |EraLabel(year)| + 3;
    var head := EraLabel(year) + " " + EnDash + " ";
    assert |head| == p;
    assert s == head + EraLabel(e);
    assert s[p..] == EraLabel(e);
    EraLabelRoundTrip(e);
  }

  // ---- Impact dots ----

  /** Dot i of five is filled when i < (importance || 5) / 2. */
  predicate DotFilled(i: nat, importance: Option<int>)
  {
    (i as real) < (NumberOr(importance, 5) as real) / 2.0
  }

  function ImpactDots(importance: Option<int>): (dots: seq<bool>)
    ensures |dots| == 5
  {
    seq(5, i requires 0 <= i < 5 => DotFilled(i, importance))
  }

  /** The number of filled dots for an importance v: ceil(v / 2), kept in [0, 5]. */
  function FilledCount(v: int): nat
  {
    if v <= 0 then 0 else if (v + 1) / 2 >= 5 then 5 else (v + 1) / 2
  }

  lemma HalfBound(i: nat, v: int)
    ensures (i as real) < (v as real) / 2.0 <==> 2 * i < v
  {
  }

  /** The filled dots form a prefix, of length min(5, ceil(importance / 2)). */
  lemma ImpactDotsPrefix(importance: Option<int>)
    ensures forall i :: 0 <= i < 5 ==> (ImpactDots(importance)[i] <==> i < FilledCount(NumberOr(importance, 5)))
  {
    var v := NumberOr(importance, 5);
    forall i | 0 <= i < 5 ensures ImpactDots(importance)[i] <==> i < FilledCount(v) {
      HalfBound(i, v);
    }
  }

  /** On the 1-10 scale one to five dots are filled; an entity without an importance shows three. */
  lemma ImpactDotsScale(importance: Option<int>)
    requires importance.Some? ==> 1 <= importance.value <= 10
    ensures 1 <= FilledCount(NumberOr(importance, 5)) <= 5
    ensures importance == None ==> FilledCount(NumberOr(importance, 5)) == 3
    ensures importance.Some? ==> FilledCount(NumberOr(importance, 5)) == (importance.value + 1) / 2
  {
  }
}
