/** Annotating each filtered row with its state's population in that year
    (final1.py:23-28, 131-133). The lookup is partial: a missing pair is an error. */
module Population {
  import opened Wrappers
  import opened Records
  import opened Selection
  import opened Filtering

  /** Population of each south-eastern state by year, as the script hard-codes it. */
  const PopulationTable: map<(StateCode, int), nat> := map[
    (ES, 2017) := 4016356, (ES, 2018) := 3972388,
    (MG, 2017) := 21119536, (MG, 2018) := 21040662,
    (RJ, 2017) := 16718956, (RJ, 2018) := 17159960,
    (SP, 2017) := 45094866, (SP, 2018) := 45538936
  ]

  /** The KeyError the lookup raises for a pair missing from the table. */
  datatype LookupError = MissingPopulation(state: StateCode, year: int)

  /** A filtered row with its POPULACAO column. */
  datatype Annotated = Annotated(row: Record, population: nat)

  predicate HasPopulation(r: Record) {
    (r.state, r.year) in PopulationTable
  }

  /** Row `i` is the first row whose pair the table lacks. */
  predicate FirstMissing(rows: seq<Record>, i: int) {
    0 <= i < |rows| && !HasPopulation(rows[i]) && forall j :: 0 <= j < i ==> HasPopulation(rows[j])
  }

  /** The table knows every state in exactly the two dashboard years. */
  lemma PopulationDomain(s: StateCode, y: int)
    ensures (s, y) in PopulationTable <==> y in AllYears
  {
  }

  /** Annotates row by row; fails with the first row whose pair the table lacks.
      On success every row is kept, in order, paired with its table entry. */
  function Annotate(rows: seq<Record>): (out: Result<seq<Annotated>, LookupError>)
    ensures out.Success? <==> forall i :: 0 <= i < |rows| ==> HasPopulation(rows[i])
    ensures out.Success? ==> |out.value| == |rows|
    ensures out.Success? ==> forall i :: 0 <= i < |rows| ==>
              out.value[i].row == rows[i] &&
              out.value[i].population == PopulationTable[(rows[i].state, rows[i].year)]
    ensures out.Failure? ==>
              exists i :: FirstMissing(rows, i) && out.error == MissingPopulation(rows[i].state, rows[i].year)
  {
    if |rows| == 0 then Success([])
    else if !HasPopulation(rows[0]) then Failure(MissingPopulation(rows[0].state, rows[0].year))
    else
      match Annotate(rows[1..])
      case Failure(e) =>
        assert forall i :: 1 <= i < |rows| ==> rows[i] == rows[1..][i - 1];
        Failure(e)
      case Success(rest) =>
        Success([Annotated(rows[0], PopulationTable[(rows[0].state, rows[0].year)])] + rest)
  }

  /** On the dashboard's own selections the partial lookup never fails: the filter
      only lets through the years the table knows. */
  lemma AnnotateFilteredSucceeds(rows: seq<Record>, yb: YearBoxes, sb: StateBoxes)
    ensures Annotate(FilterRows(rows, SelectedYears(yb), SelectedStates(sb))).Success?
  {
    var out := FilterRows(rows, SelectedYears(yb), SelectedStates(sb));
    forall i | 0 <= i < |out|
      ensures HasPopulation(out[i])
    {
      assert out[i] in out;
      PopulationDomain(out[i].state, out[i].year);
    }
  }
}
