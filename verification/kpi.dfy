/** The summary figures: total cases, total deaths and the mortality rate of the
    filtered table (final1.py:212-214). */
module Kpi {
  import opened Records
  import opened Aggregation

  /** Deaths as a percentage of cases; 0 when there are no (positive) cases. */
  function MortalityRate(cases: real, deaths: real): (rate: real)
    ensures cases <= 0.0 ==> rate == 0.0
    ensures cases > 0.0 ==> rate * cases == 100.0 * deaths
    ensures cases > 0.0 && 0.0 <= deaths <= cases ==> 0.0 <= rate <= 100.0
  {
    if cases > 0.0 then (deaths / cases) * 100.0 else 0.0
  }

  datatype Summary = Summary(totalCases: real, totalDeaths: real, rate: real)

  /** Every row reports no more deaths than cases, and neither is negative. */
  predicate Plausible(rows: seq<Record>) {
    forall r :: r in rows ==> 0.0 <= r.deaths <= r.cases
  }

  /** Over plausible rows the death total is between 0 and the case total. */
  lemma {:induction false} PlausibleTotals(rows: seq<Record>)
    ensures Plausible(rows) ==> 0.0 <= Total(rows, Deaths) <= Total(rows, Cases)
    decreases |rows|
  {
    if |rows| > 0 && Plausible(rows) {
      assert rows[0] in rows;
      assert forall r :: r in rows[1..] ==> r in rows;
      PlausibleTotals(rows[1..]);
    }
  }

  /** The three KPI boxes. The rate is a percentage in [0, 100] whenever each row has
      no more deaths than cases, and 0 when the table has no cases. */
  function Summarize(rows: seq<Record>): (s: Summary)
    ensures s.totalCases == Total(rows, Cases) && s.totalDeaths == Total(rows, Deaths)
    ensures s.totalCases <= 0.0 ==> s.rate == 0.0
    ensures s.totalCases > 0.0 ==> s.rate * s.totalCases == 100.0 * s.totalDeaths
    ensures Plausible(rows) ==> 0.0 <= s.rate <= 100.0
  {
    var cases := Total(rows, Cases);
    var deaths := Total(rows, Deaths);
    PlausibleTotals(rows);
    Summary(cases, deaths, MortalityRate(cases, deaths))
  }

  /** The KPI rate agrees with the rate recomputed from the per-state bar chart
      totals: grouping by state neither loses nor double-counts cases or deaths. */
  lemma RateFromStateTotals(rows: seq<Record>)
    ensures var gs := StateTotals(rows);
            MortalityRate(ColumnTotal(gs, 0), ColumnTotal(gs, 1)) == Summarize(rows).rate
  {
  }
}
