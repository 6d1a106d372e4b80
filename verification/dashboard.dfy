/** The whole data path of the dashboard script: selection, filter, population
    column, the chart tables, the KPI boxes and the normalised evolution chart
    with its month axis and summer bands. */
module Dashboard {
  import opened Wrappers
  import opened Records
  import opened Sequences
  import opened Selection
  import opened Filtering
  import opened Population
  import opened Aggregation
  import opened Kpi
  import opened Normalization
  import opened MonthAxis

  /** The normalised chart's grouping key (ANO_IS, MES_GLOBAL). */
  function GlobalKey(twoYears: bool): Record -> YearMonth {
    (r: Record) => YearMonth(r.year, GlobalMonth(r.month, r.year, twoYears))
  }

  /** The normalised evolution table (final1.py:443-447): per (year, axis position)
      the sums of the rescaled cases and deaths and the mean of the rescaled climate
      column, oldest first; every column adds back up to the table's total. */
  function NormalizedEvolution(normal: seq<Record>, v: ClimateVar, twoYears: bool): (gs: seq<Group<YearMonth>>)
    ensures KeysOf(KeySeq(gs), normal, GlobalKey(twoYears))
    ensures Chronological(KeySeq(gs))
    ensures forall i :: 0 <= i < |gs| ==>
              var m := Members(normal, GlobalKey(twoYears), gs[i].key);
              gs[i].size == |m| > 0 && |gs[i].values| == 3 &&
              gs[i].values[0] == Total(m, Cases) && gs[i].values[1] == Total(m, Deaths) &&
              gs[i].values[2] == Total(m, ClimateColumn(v)) / |m| as real &&
              Weighted(gs[i], 2) == Total(m, ClimateColumn(v))
    ensures ColumnTotal(gs, 0) == Total(normal, Cases)
    ensures ColumnTotal(gs, 1) == Total(normal, Deaths)
    ensures WeightedTotal(gs, 2) == Total(normal, ClimateColumn(v))
  {
    var key := GlobalKey(twoYears);
    var ks := YearMonthKeys(normal, key);
    var reds := [SumOf(Cases), SumOf(Deaths), MeanOf(ClimateColumn(v))];
    var gs := GroupBy(normal, key, ks, reds);
    assert KeySeq(gs) == ks;
    forall i | 0 <= i < |gs|
      ensures Weighted(gs[i], 2) == Total(Members(normal, key, gs[i].key), ClimateColumn(v))
    {
      assert gs[i] == MakeGroup(normal, key, ks[i], reds);
      MeanGroupWeight(normal, key, ks[i], reds, 2);
    }
    gs
  }

  /** Distinct two-year axis keys of dashboard rows, oldest first, have strictly
      increasing positions. */
  lemma GlobalKeysIncrease(normal: seq<Record>, ks: seq<YearMonth>)
    requires forall r :: r in normal ==> r.year in AllYears && WellFormed(r)
    requires KeysOf(ks, normal, GlobalKey(true)) && Chronological(ks)
    ensures forall i, j :: 0 <= i < j < |ks| ==> ks[i].month < ks[j].month
  {
    var key := GlobalKey(true);
    forall i, j | 0 <= i < j < |ks|
      ensures ks[i].month < ks[j].month
    {
      assert ks[i] in ks && ks[j] in ks;
      var ri :| ri in normal && key(ri) == ks[i];
      var rj :| rj in normal && key(rj) == ks[j];
      assert Before(ks[i], ks[j]);
      GlobalMonthChronological(ri.year, ri.month, rj.year, rj.month);
    }
  }

  /** On the two-year axis the (year, position) order of the normalised table is
      the order of the positions alone, so its lines run left to right. */
  lemma EvolutionAxisOrder(normal: seq<Record>, v: ClimateVar)
    requires forall r :: r in normal ==> r.year in AllYears && WellFormed(r)
    ensures var ks := KeySeq(NormalizedEvolution(normal, v, true));
            forall i, j :: 0 <= i < j < |ks| ==> ks[i].month < ks[j].month
  {
    GlobalKeysIncrease(normal, KeySeq(NormalizedEvolution(normal, v, true)));
  }

  /** Everything the charts and boxes display. */
  datatype Views = Views(
    table: seq<Annotated>,
    casesByState: seq<Group<StateCode>>,
    stateTotals: seq<Group<StateCode>>,
    casesByMonth: seq<Group<YearMonth>>,
    climateByMonth: seq<Group<YearMonth>>,
    summary: Summary,
    evolution: seq<Group<YearMonth>>,
    twoYears: bool,
    bands: seq<Band>)

  /** Why the script stops: a missing population entry or a scaler with no rows. */
  datatype DashboardError = Lookup(lookup: LookupError) | Scaling(scaling: ScaleError)

  /** Runs the data path for one state of the widgets. It fails exactly when the
      selection matches no row; otherwise the table is the filtered rows with their
      populations, the mortality rate is a percentage whenever the data is plausible,
      and the bands are the fixed summer bands for the year count, which shade
      exactly the summer rows' positions. */
  function Render(data: seq<Record>, yb: YearBoxes, sb: StateBoxes, v: ClimateVar): (out: Result<Views, DashboardError>)
    ensures var rows := FilterRows(data, SelectedYears(yb), SelectedStates(sb));
            out.Success? <==> |rows| > 0
    ensures out.Success? ==>
              var rows := FilterRows(data, SelectedYears(yb), SelectedStates(sb));
              |out.value.table| == |rows| &&
              forall i :: 0 <= i < |rows| ==>
                out.value.table[i].row == rows[i] && HasPopulation(rows[i]) &&
                out.value.table[i].population == PopulationTable[(rows[i].state, rows[i].year)]
    ensures out.Success? ==>
              var rows := FilterRows(data, SelectedYears(yb), SelectedStates(sb));
              out.value.casesByState == CasesByState(rows) &&
              out.value.stateTotals == StateTotals(rows) &&
              out.value.casesByMonth == CasesByMonth(rows) &&
              out.value.climateByMonth == ClimateByMonth(rows, v) &&
              out.value.summary == Summarize(rows) &&
              out.value.evolution == NormalizedEvolution(Normalize(rows, ChartColumns(v)).value, v, out.value.twoYears)
    ensures out.Success? ==> out.value.twoYears == (yb.y2017 == yb.y2018)
    ensures out.Success? ==> out.value.bands == SummerBands(out.value.twoYears)
    ensures out.Success? && Plausible(data) ==> 0.0 <= out.value.summary.rate <= 100.0
    ensures out.Success? ==>
              forall r :: r in FilterRows(data, SelectedYears(yb), SelectedStates(sb)) && WellFormed(r) ==>
                (Shaded(out.value.bands, GlobalMonth(r.month, r.year, out.value.twoYears)) <==> IsSummer(r.month))
  {
    var years := SelectedYears(yb);
    var states := SelectedStates(sb);
    var rows := FilterRows(data, years, states);
    var twoYears := |years| == 2;
    AnnotateFilteredSucceeds(data, yb, sb);
    match Annotate(rows)
    case Failure(e) => Failure(Lookup(e))
    case Success(table) =>
      match Normalize(rows, ChartColumns(v))
      case Failure(e) => Failure(Scaling(e))
      case Success(normal) =>
        assert Plausible(data) ==> Plausible(rows);
        assert forall r :: r in rows && WellFormed(r) ==>
                 (Shaded(SummerBands(twoYears), GlobalMonth(r.month, r.year, twoYears)) <==> IsSummer(r.month)) by {
          forall r | r in rows && WellFormed(r)
            ensures Shaded(SummerBands(twoYears), GlobalMonth(r.month, r.year, twoYears)) <==> IsSummer(r.month)
          {
            BandsMarkSummer(twoYears, r.year, r.month);
          }
        }
        Success(Views(
          table,
          CasesByState(rows),
          StateTotals(rows),
          CasesByMonth(rows),
          ClimateByMonth(rows, v),
          Summarize(rows),
          NormalizedEvolution(normal, v, twoYears),
          twoYears,
          SummerBands(twoYears)))
  }

  // A worked case: two January 2017 rows, ES with 10 cases and 1 death, SP with
  // 20 cases and 4 deaths.

  const ScenarioES := Record(ES, 2017, 1, 10.0, 1.0, 0.1, 0.0, 0.0, 0.0, 0.0)
  const ScenarioSP := Record(SP, 2017, 1, 20.0, 4.0, 0.2, 0.0, 0.0, 0.0, 0.0)

  /** Ticking 2017, ES and SP keeps both rows. */
  lemma ScenarioFilter()
    ensures FilterRows([ScenarioES, ScenarioSP], SelectedYears(YearBoxes(true, false)),
                       SelectedStates(StateBoxes(true, false, false, true))) == [ScenarioES, ScenarioSP]
  {
    var years := SelectedYears(YearBoxes(true, false));
    var states := SelectedStates(StateBoxes(true, false, false, true));
    assert years == [2017] && states == [ES, SP];
    KeepAll([ScenarioES, ScenarioSP], (r: Record) => Selected(r, years, states));
  }

  /** The two rows hold the states ES and SP, in that order. */
  lemma ScenarioKeys()
    ensures StateKeys([ScenarioES, ScenarioSP]) == [ES, SP]
  {
    var rows := [ScenarioES, ScenarioSP];
    assert HasState(rows, ES) && HasState(rows, SP);
    assert !HasState(rows, MG) && !HasState(rows, RJ);
  }

  /** Each state's slice of the two rows is that state's row alone. */
  lemma ScenarioMembers()
    ensures Members([ScenarioES, ScenarioSP], StateOf, ES) == [ScenarioES]
    ensures Members([ScenarioES, ScenarioSP], StateOf, SP) == [ScenarioSP]
  {
    var rows := [ScenarioES, ScenarioSP];
    assert rows[1..] == [ScenarioSP] && [ScenarioSP][1..] == [];
    var isES := (r: Record) => StateOf(r) == ES;
    var isSP := (r: Record) => StateOf(r) == SP;
    assert Keep([ScenarioSP], isES) == [];
    assert Keep(rows, isES) == [ScenarioES];
    assert Keep([ScenarioSP], isSP) == [ScenarioSP];
    assert Keep(rows, isSP) == [ScenarioSP];
  }

  /** The pie chart shows 10 cases for ES and 20 for SP. */
  lemma ScenarioPie()
    ensures var gs := CasesByState([ScenarioES, ScenarioSP]);
            KeySeq(gs) == [ES, SP] && gs[0].values == [10.0] && gs[1].values == [20.0]
  {
    var rows := [ScenarioES, ScenarioSP];
    var gs := CasesByState(rows);
    ScenarioKeys();
    assert KeySeq(gs) == StateKeys(rows);
    assert |gs| == 2 && gs[0].key == ES && gs[1].key == SP by {
      assert |KeySeq(gs)| == |gs|;
      assert KeySeq(gs)[0] == gs[0].key && KeySeq(gs)[1] == gs[1].key;
    }
    ScenarioMembers();
    assert [ScenarioES][1..] == [] && [ScenarioSP][1..] == [];
    assert Total([ScenarioES], Cases) == 10.0 + Total([], Cases);
    assert Total([ScenarioSP], Cases) == 20.0 + Total([], Cases);
  }

  /** The mortality rate of the two rows is 100 * 5 / 30 percent. */
  lemma ScenarioRate()
    ensures Summarize([ScenarioES, ScenarioSP]).rate == 100.0 * 5.0 / 30.0
  {
    var rows := [ScenarioES, ScenarioSP];
    assert rows[1..] == [ScenarioSP] && [ScenarioSP][1..] == [];
    assert Total([ScenarioSP], Cases) == 20.0 + Total([], Cases);
    assert Total([ScenarioSP], Deaths) == 4.0 + Total([], Deaths);
    assert Total(rows, Cases) == 10.0 + Total([ScenarioSP], Cases);
    assert Total(rows, Deaths) == 1.0 + Total([ScenarioSP], Deaths);
  }
}
