/** The row filter behind every chart: rows whose year and state are both
    selected, in their original order (final1.py:129). */
module Filtering {
  import opened Records
  import opened Sequences
  import opened Selection

  /** The year is among the selected years and the state among the selected states. */
  predicate Selected(r: Record, years: seq<int>, states: seq<StateCode>) {
    r.year in years && r.state in states
  }

  /** The filtered table: exactly the selected rows, with their multiplicities,
      as a subsequence of the input. */
  function FilterRows(rows: seq<Record>, years: seq<int>, states: seq<StateCode>): (out: seq<Record>)
    ensures forall r :: r in out <==> r in rows && Selected(r, years, states)
    ensures forall r :: multiset(out)[r] == if Selected(r, years, states) then multiset(rows)[r] else 0
    ensures IsSubsequence(out, rows)
  {
    Keep(rows, (r: Record) => Selected(r, years, states))
  }

  /** The filter treats each part of the table independently, so filtering a
      concatenation filters each part and keeps the parts in order. */
  lemma FilterAppend(rows: seq<Record>, more: seq<Record>, years: seq<int>, states: seq<StateCode>)
    ensures FilterRows(rows + more, years, states) == FilterRows(rows, years, states) + FilterRows(more, years, states)
  {
    KeepAppend(rows, more, (r: Record) => Selected(r, years, states));
  }

  /** Re-applying the same selection to a filtered table changes nothing. */
  lemma FilterIdempotent(rows: seq<Record>, years: seq<int>, states: seq<StateCode>)
    ensures FilterRows(FilterRows(rows, years, states), years, states) == FilterRows(rows, years, states)
  {
    KeepIdempotent(rows, (r: Record) => Selected(r, years, states));
  }

  /** With no box ticked the filter keeps every row of the dashboard's two years,
      untouched and in order: an empty choice means "all". */
  lemma FilterNothingTickedKeepsAll(rows: seq<Record>)
    requires forall r :: r in rows ==> r.year in AllYears
    ensures FilterRows(rows, SelectedYears(YearBoxes(false, false)),
                       SelectedStates(StateBoxes(false, false, false, false))) == rows
  {
    var years := SelectedYears(YearBoxes(false, false));
    var states := SelectedStates(StateBoxes(false, false, false, false));
    KeepAll(rows, (r: Record) => Selected(r, years, states));
  }

  /** The filter only ever yields rows of the two dashboard years and of the ticked
      (or, with none ticked, any) state: the (state, year) pairs come from the product
      of the two selections. */
  lemma FilteredPairs(rows: seq<Record>, yb: YearBoxes, sb: StateBoxes, r: Record)
    requires r in FilterRows(rows, SelectedYears(yb), SelectedStates(sb))
    ensures r in rows
    ensures r.year in AllYears && (YearChecked(yb, r.year) || NoYearChecked(yb))
    ensures StateChecked(sb, r.state) || NoStateChecked(sb)
  {
  }
}
