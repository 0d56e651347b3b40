/**
 * The year select of components/transactions/year-selector.tsx: the list of
 * years it offers and the parameter update a choice makes. `clockYear` is
 * the year the browser's clock reads; where it meets the read endpoint, the
 * model takes the server's `currentYear` to be that same year.
 */
module YearSelector {
  import opened Wrappers
  import opened Text
  import opened Query

  /** The earliest year offered. */
  const StartYear: int := 2023

  /** `Array.from({ length }, (_, i) => endYear - i)`: `length` entries counting down from `endYear`, none for a negative length. */
  function CountDown(endYear: int, length: int): (ys: seq<int>)
    ensures |ys| == if length < 0 then 0 else length
    ensures forall i :: 0 <= i < |ys| ==> ys[i] == endYear - i
  {
    if length <= 0 then [] else seq(length, i requires 0 <= i < length => endYear - i)
  }

  /** The offered years as the component builds them: from next year down to 2023. */
  function YearOptions(clockYear: int): seq<int> {
    var endYear := clockYear + 1;
    CountDown(endYear, endYear - StartYear + 1)
  }

  /** The offered years as the endpoint honours them: from the current year down to 2023. */
  function CorrectedYearOptions(clockYear: int): seq<int> {
    CountDown(clockYear, clockYear - StartYear + 1)
  }

  /** A count-down from `endYear` to `StartYear` holds each year of that range exactly once, newest first. */
  lemma CountDownCovers(endYear: int)
    ensures var ys := CountDown(endYear, endYear - StartYear + 1);
      && (forall y :: y in ys <==> StartYear <= y <= endYear)
      && (forall i :: 0 <= i < |ys| - 1 ==> ys[i + 1] == ys[i] - 1)
      && (forall i, j :: 0 <= i < j < |ys| ==> ys[i] > ys[j])
  {
    var ys := CountDown(endYear, endYear - StartYear + 1);
    forall y | StartYear <= y <= endYear ensures y in ys {
      assert ys[endYear - y] == y;
    }
  }

  /** The offered list: every year from 2023 to next year once, counting down by one. */
  lemma YearOptionsShape(clockYear: int)
    requires clockYear + 1 >= StartYear
    ensures |YearOptions(clockYear)| == clockYear + 1 - StartYear + 1
    ensures YearOptions(clockYear)[0] == clockYear + 1
    ensures forall y :: y in YearOptions(clockYear) <==> StartYear <= y <= clockYear + 1
    ensures forall i :: 0 <= i < |YearOptions(clockYear)| - 1 ==> YearOptions(clockYear)[i + 1] == YearOptions(clockYear)[i] - 1
  {
    CountDownCovers(clockYear + 1);
  }

  /** `handleYearChange`: sets `year`, every other parameter kept. */
  function HandleYearChange(p: Params, year: string): (r: Params)
    ensures "year" in r && r["year"] == year
    ensures forall k :: k != "year" ==> (k in r <==> k in p) && (k in r ==> r[k] == p[k])
  {
    p["year" := year]
  }

  /**
   * The first offered year is next year, which the endpoint does not accept:
   * choosing it lists the current year instead.
   */
  lemma FirstOptionRejected(p: Params, clockYear: int)
    requires clockYear + 1 >= StartYear
    ensures var y := YearOptions(clockYear)[0];
      && y == clockYear + 1
      && SelectedYear(Param(HandleYearChange(p, NatToDecimal(y)), "year"), clockYear) == clockYear
      && SelectedYear(Param(HandleYearChange(p, NatToDecimal(y)), "year"), clockYear) != y
  {
    var y := clockYear + 1;
    assert YearOptions(clockYear)[0] == y;
    var q := HandleYearChange(p, NatToDecimal(y));
    assert Param(q, "year") == Some(NatToDecimal(y));
    SelectedYearOfDecimal(y, clockYear);
  }

  /** Every corrected option is a year the endpoint lists as chosen. */
  lemma CorrectedOptionsAccepted(p: Params, clockYear: int, y: int)
    requires y in CorrectedYearOptions(clockYear)
    ensures StartYear <= y <= clockYear
    ensures SelectedYear(Param(HandleYearChange(p, NatToDecimal(y)), "year"), clockYear) == y
  {
    CountDownCovers(clockYear);
    var q := HandleYearChange(p, NatToDecimal(y));
    assert Param(q, "year") == Some(NatToDecimal(y));
    SelectedYearOfDecimal(y, clockYear);
  }

  /** The corrected list is the offered list without its first entry. */
  lemma CorrectedDropsFirst(clockYear: int)
    requires clockYear + 1 >= StartYear
    ensures CorrectedYearOptions(clockYear) == YearOptions(clockYear)[1..]
  {
  }
}
