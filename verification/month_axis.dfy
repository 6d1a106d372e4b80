/** The month axis of the normalised chart: with both years selected the months run
    on one 1-24 axis (final1.py:437-440), and the summer months (December, January,
    February) are shaded by vertical bands (final1.py:490-530). */
module MonthAxis {
  import opened Records

  /** MES_GLOBAL: the month itself, shifted by 12 for 2018 rows when two years are
      selected. */
  function GlobalMonth(month: int, year: int, twoYears: bool): (g: int)
    ensures !twoYears ==> g == month
    ensures 1 <= month <= 12 ==> 1 <= g <= 24
  {
    if twoYears && year == 2018 then month + 12 else month
  }

  /** With two years the axis is chronological: an earlier (year, month) gets a
      smaller position, so in particular no two months share a position. */
  lemma GlobalMonthChronological(y1: int, m1: int, y2: int, m2: int)
    requires y1 in AllYears && y2 in AllYears
    requires 1 <= m1 <= 12 && 1 <= m2 <= 12
    ensures GlobalMonth(m1, y1, true) < GlobalMonth(m2, y2, true) <==> y1 < y2 || (y1 == y2 && m1 < m2)
    ensures GlobalMonth(m1, y1, true) == GlobalMonth(m2, y2, true) <==> y1 == y2 && m1 == m2
  {
  }

  /** The month a position of the two-year axis stands for (its tick label's month). */
  function MonthAt(g: int): (m: int)
    requires 1 <= g <= 24
    ensures 1 <= m <= 12
  {
    if g > 12 then g - 12 else g
  }

  /** The year a position of the two-year axis stands for (its tick label's year). */
  function YearAt(g: int): (y: int)
    requires 1 <= g <= 24
    ensures y in AllYears
  {
    if g > 12 then 2018 else 2017
  }

  /** Reading the tick label back recovers the row's year and month, and every
      position of the 24-month axis is the image of exactly its labelled month. */
  lemma TickLabelsInvertGlobalMonth(year: int, month: int, g: int)
    requires year in AllYears && 1 <= month <= 12 && 1 <= g <= 24
    ensures MonthAt(GlobalMonth(month, year, true)) == month
    ensures YearAt(GlobalMonth(month, year, true)) == year
    ensures GlobalMonth(MonthAt(g), YearAt(g), true) == g
  {
  }

  /** A shaded vertical band from `x0` to `x1` on the month axis. */
  datatype Band = Band(x0: real, x1: real)

  /** The bands the chart draws, in drawing order. */
  function SummerBands(twoYears: bool): (bs: seq<Band>)
    ensures forall i :: 0 <= i < |bs| ==> 0.5 <= bs[i].x0 < bs[i].x1 <= if twoYears then 24.5 else 12.5
  {
    if twoYears then [Band(0.5, 2.5), Band(12.5, 14.5), Band(11.5, 12.5), Band(23.5, 24.5)]
    else [Band(0.5, 2.5), Band(11.5, 12.5)]
  }

  /** Position `p` of the axis lies inside one of the bands. */
  predicate Shaded(bs: seq<Band>, p: int) {
    exists i :: 0 <= i < |bs| && bs[i].x0 <= p as real <= bs[i].x1
  }

  predicate IsSummer(month: int) {
    month == 12 || month == 1 || month == 2
  }

  /** The bands shade exactly the integer positions of December, January and
      February: 1, 2, 12, 13, 14 and 24 on the two-year axis, 1, 2 and 12 otherwise. */
  lemma ShadedPositions(twoYears: bool, p: int)
    ensures Shaded(SummerBands(twoYears), p) <==>
            if twoYears then p in {1, 2, 12, 13, 14, 24} else p in {1, 2, 12}
  {
    var bs := SummerBands(twoYears);
    if p in {1, 2} {
      assert bs[0].x0 <= p as real <= bs[0].x1;
    }
    if p == 12 {
      assert bs[if twoYears then 2 else 1].x0 <= p as real <= bs[if twoYears then 2 else 1].x1;
    }
    if twoYears && p in {13, 14} {
      assert bs[1].x0 <= p as real <= bs[1].x1;
    }
    if twoYears && p == 24 {
      assert bs[3].x0 <= p as real <= bs[3].x1;
    }
  }

  /** A row's position on the chart is shaded exactly when the row is a summer
      month, whichever of the two axes is in use. */
  lemma BandsMarkSummer(twoYears: bool, year: int, month: int)
    requires 1 <= month <= 12
    requires twoYears ==> year in AllYears
    ensures Shaded(SummerBands(twoYears), GlobalMonth(month, year, twoYears)) <==> IsSummer(month)
  {
    ShadedPositions(twoYears, GlobalMonth(month, year, twoYears));
  }
}
