/** Turning the year and state checkboxes into the lists the filter uses
    (final1.py:103-126). An empty choice falls back to everything. */
module Selection {
  import opened Records

  /** The two year checkboxes. */
  datatype YearBoxes = YearBoxes(y2017: bool, y2018: bool)

  /** The four state checkboxes. */
  datatype StateBoxes = StateBoxes(es: bool, mg: bool, rj: bool, sp: bool)

  predicate YearChecked(b: YearBoxes, y: int) {
    (y == 2017 && b.y2017) || (y == 2018 && b.y2018)
  }

  predicate StateChecked(b: StateBoxes, s: StateCode) {
    match s
    case ES => b.es
    case MG => b.mg
    case RJ => b.rj
    case SP => b.sp
  }

  predicate NoYearChecked(b: YearBoxes) {
    !b.y2017 && !b.y2018
  }

  predicate NoStateChecked(b: StateBoxes) {
    !b.es && !b.mg && !b.rj && !b.sp
  }

  /** The years whose box is ticked, in checkbox order, or both years when none is. */
  function SelectedYears(b: YearBoxes): (ys: seq<int>)
    ensures |ys| > 0
    ensures NoYearChecked(b) ==> ys == AllYears
    ensures forall y :: y in ys <==> y in AllYears && (YearChecked(b, y) || NoYearChecked(b))
    ensures forall i, j :: 0 <= i < j < |ys| ==> ys[i] < ys[j]
    ensures |ys| == 2 <==> b.y2017 == b.y2018
    ensures |ys| == 2 ==> ys == AllYears
  {
    var ticked := (if b.y2017 then [2017] else []) + (if b.y2018 then [2018] else []);
    if ticked == [] then AllYears else ticked
  }

  predicate RankSorted(ss: seq<StateCode>) {
    forall i, j :: 0 <= i < j < |ss| ==> StateRank(ss[i]) < StateRank(ss[j])
  }

  /** Puts `s` in front of a list of later states when its box is ticked. */
  function PrependIf(ticked: bool, s: StateCode, later: seq<StateCode>): (ss: seq<StateCode>)
    requires RankSorted(later) && forall x :: x in later ==> StateRank(s) < StateRank(x)
    ensures RankSorted(ss)
    ensures forall x :: x in ss <==> (ticked && x == s) || x in later
    ensures forall x :: x in ss ==> StateRank(s) <= StateRank(x)
  {
    if ticked then
      assert forall i :: 1 <= i < |[s] + later| ==> ([s] + later)[i] in later;
      [s] + later
    else later
  }

  /** The states whose box is ticked, in checkbox order, or all four when none is. */
  function SelectedStates(b: StateBoxes): (ss: seq<StateCode>)
    ensures |ss| > 0
    ensures NoStateChecked(b) ==> ss == AllStates
    ensures forall s :: s in ss <==> StateChecked(b, s) || NoStateChecked(b)
    ensures RankSorted(ss)
  {
    var ticked := PrependIf(b.es, ES, PrependIf(b.mg, MG, PrependIf(b.rj, RJ, PrependIf(b.sp, SP, []))));
    assert forall s :: s in AllStates by {
      forall s: StateCode ensures s in AllStates {
        assert AllStates[StateRank(s)] == s;
      }
    }
    assert forall s :: s in ticked <==> StateChecked(b, s);
    if ticked == [] then AllStates else ticked
  }
}
