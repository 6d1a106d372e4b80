/** Min-max rescaling of the charted columns over the filtered table itself, the
    effect of `MinMaxScaler().fit_transform` (final1.py:428-435), over the reals. */
module Normalization {
  import opened Wrappers
  import opened Records

  /** The values of one column, row by row. */
  function ColumnValues(rows: seq<Record>, c: Column): (vs: seq<real>)
    ensures |vs| == |rows| && forall i :: 0 <= i < |rows| ==> vs[i] == Get(rows[i], c)
  {
    seq(|rows|, i requires 0 <= i < |rows| => Get(rows[i], c))
  }

  /** The smallest value: it occurs in the list and no value is below it. */
  function MinOf(vs: seq<real>): (m: real)
    requires |vs| > 0
    ensures m in vs && forall i :: 0 <= i < |vs| ==> m <= vs[i]
    decreases |vs|
  {
    if |vs| == 1 then vs[0]
    else
      var rest := MinOf(vs[1..]);
      assert forall i :: 1 <= i < |vs| ==> vs[i] == vs[1..][i - 1];
      if vs[0] <= rest then vs[0] else rest
  }

  /** The largest value: it occurs in the list and no value is above it. */
  function MaxOf(vs: seq<real>): (m: real)
    requires |vs| > 0
    ensures m in vs && forall i :: 0 <= i < |vs| ==> vs[i] <= m
    decreases |vs|
  {
    if |vs| == 1 then vs[0]
    else
      var rest := MaxOf(vs[1..]);
      assert forall i :: 1 <= i < |vs| ==> vs[i] == vs[1..][i - 1];
      if vs[0] >= rest then vs[0] else rest
  }

  /** A value that occurs and bounds the list from below is its minimum. */
  lemma MinOfIs(vs: seq<real>, a: real)
    requires a in vs && forall i :: 0 <= i < |vs| ==> a <= vs[i]
    ensures MinOf(vs) == a
  {
  }

  /** A value that occurs and bounds the list from above is its maximum. */
  lemma MaxOfIs(vs: seq<real>, a: real)
    requires a in vs && forall i :: 0 <= i < |vs| ==> vs[i] <= a
    ensures MaxOf(vs) == a
  {
  }

  function Lo(rows: seq<Record>, c: Column): real
    requires |rows| > 0
  {
    MinOf(ColumnValues(rows, c))
  }

  function Hi(rows: seq<Record>, c: Column): real
    requires |rows| > 0
  {
    MaxOf(ColumnValues(rows, c))
  }

  /** The scaler's per-value map: subtract the minimum, divide by the range, with a
      zero range replaced by 1 so that a constant column maps to 0. */
  function Scale(x: real, lo: real, hi: real): real {
    (x - lo) / (if hi - lo == 0.0 then 1.0 else hi - lo)
  }

  /** The scaled value of one column of one row, against the table's own range. */
  function Rescaled(r: Record, c: Column, rows: seq<Record>, cols: seq<Column>): real
    requires |rows| > 0
  {
    if c in cols then Scale(Get(r, c), Lo(rows, c), Hi(rows, c)) else Get(r, c)
  }

  /** A copy of `r` whose columns listed in `cols` are rescaled. */
  function RescaleRow(r: Record, rows: seq<Record>, cols: seq<Column>): (r': Record)
    requires |rows| > 0
    ensures SameIdentity(r, r')
  {
    r.(cases := Rescaled(r, Cases, rows, cols),
       deaths := Rescaled(r, Deaths, rows, cols),
       temperature := Rescaled(r, Temperature, rows, cols),
       precipitation := Rescaled(r, Precipitation, rows, cols),
       radiation := Rescaled(r, Radiation, rows, cols),
       pressure := Rescaled(r, Pressure, rows, cols))
  }

  lemma RescaleRowGet(r: Record, rows: seq<Record>, cols: seq<Column>, c: Column)
    requires |rows| > 0
    ensures Get(RescaleRow(r, rows, cols), c) == Rescaled(r, c, rows, cols)
  {
    match c
    case Cases =>
    case Deaths =>
    case Temperature =>
    case Precipitation =>
    case Radiation =>
    case Pressure =>
  }

  /** The scaler refuses a table without rows (it needs at least one sample). */
  datatype ScaleError = EmptySample

  /** Every row of `rows` with its listed columns rescaled. */
  function RescaleAll(rows: seq<Record>, cols: seq<Column>): (out: seq<Record>)
    requires |rows| > 0
    ensures |out| == |rows|
  {
    seq(|rows|, i requires 0 <= i < |rows| => RescaleRow(rows[i], rows, cols))
  }

  /** Column `c` of `out` is the unit-range image of column `c` of `rows`: every
      value lies in [0, 1]; the rows holding the minimum become 0 and, when the
      range is not zero, the rows holding the maximum become 1; a column with zero
      range becomes all 0. */
  predicate UnitColumn(rows: seq<Record>, out: seq<Record>, c: Column)
    requires |rows| > 0 && |out| == |rows|
  {
    forall i :: 0 <= i < |rows| ==>
      0.0 <= Get(out[i], c) <= 1.0 &&
      (Get(rows[i], c) == Lo(rows, c) ==> Get(out[i], c) == 0.0) &&
      (Get(rows[i], c) == Hi(rows, c) && Lo(rows, c) < Hi(rows, c) ==> Get(out[i], c) == 1.0) &&
      (Lo(rows, c) == Hi(rows, c) ==> Get(out[i], c) == 0.0)
  }

  lemma RescaleAllUnit(rows: seq<Record>, cols: seq<Column>, c: Column)
    requires |rows| > 0 && c in cols
    ensures UnitColumn(rows, RescaleAll(rows, cols), c)
  {
    var out := RescaleAll(rows, cols);
    forall i | 0 <= i < |rows|
      ensures 0.0 <= Get(out[i], c) <= 1.0
      ensures Get(rows[i], c) == Lo(rows, c) ==> Get(out[i], c) == 0.0
      ensures Get(rows[i], c) == Hi(rows, c) && Lo(rows, c) < Hi(rows, c) ==> Get(out[i], c) == 1.0
      ensures Lo(rows, c) == Hi(rows, c) ==> Get(out[i], c) == 0.0
    {
      RescaleRowGet(rows[i], rows, cols, c);
      assert ColumnValues(rows, c)[i] == Get(rows[i], c);
      ScaleFacts(Get(rows[i], c), Lo(rows, c), Hi(rows, c));
    }
  }

  lemma RescaleAllKeeps(rows: seq<Record>, cols: seq<Column>, c: Column)
    requires |rows| > 0 && c !in cols
    ensures forall i :: 0 <= i < |rows| ==> Get(RescaleAll(rows, cols)[i], c) == Get(rows[i], c)
  {
    forall i | 0 <= i < |rows|
      ensures Get(RescaleAll(rows, cols)[i], c) == Get(rows[i], c)
    {
      RescaleRowGet(rows[i], rows, cols, c);
    }
  }

  /** The normalised copy of the table: same rows in the same order, the listed
      columns rescaled to the unit range, everything else untouched. */
  function Normalize(rows: seq<Record>, cols: seq<Column>): (out: Result<seq<Record>, ScaleError>)
    ensures out.Failure? <==> |rows| == 0
    ensures out.Success? ==> |out.value| == |rows|
    ensures out.Success? ==> forall i :: 0 <= i < |rows| ==> SameIdentity(rows[i], out.value[i])
    ensures out.Success? ==> forall i, c :: 0 <= i < |rows| && c !in cols ==> Get(out.value[i], c) == Get(rows[i], c)
    ensures out.Success? ==> forall c :: c in cols ==> UnitColumn(rows, out.value, c)
  {
    if |rows| == 0 then Failure(EmptySample)
    else
      var out := RescaleAll(rows, cols);
      assert forall c :: c !in cols ==> forall i :: 0 <= i < |rows| ==> Get(out[i], c) == Get(rows[i], c) by {
        forall c | c !in cols {
          RescaleAllKeeps(rows, cols, c);
        }
      }
      assert forall c :: c in cols ==> UnitColumn(rows, out, c) by {
        forall c | c in cols {
          RescaleAllUnit(rows, cols, c);
        }
      }
      Success(out)
  }

  /** Column `c` of normalised row `i`. */
  lemma NormalizeGet(rows: seq<Record>, cols: seq<Column>, i: nat, c: Column)
    requires i < |rows|
    ensures Get(Normalize(rows, cols).value[i], c) == Rescaled(rows[i], c, rows, cols)
  {
    RescaleRowGet(rows[i], rows, cols, c);
  }

  /** The charted columns: cases, deaths and the selected climate factor. */
  function ChartColumns(v: ClimateVar): seq<Column> {
    [Cases, Deaths, ClimateColumn(v)]
  }

  // Scale facts

  lemma ScaleFacts(x: real, lo: real, hi: real)
    requires lo <= x <= hi
    ensures 0.0 <= Scale(x, lo, hi) <= 1.0
    ensures x == lo ==> Scale(x, lo, hi) == 0.0
    ensures lo < hi && x == hi ==> Scale(x, lo, hi) == 1.0
    ensures lo < hi ==> Scale(x, lo, hi) * (hi - lo) == x - lo
  {
    if lo < hi {
      var d := hi - lo;
      var q := (x - lo) / d;
      assert q * d == x - lo;
      if q > 1.0 {
        assert q * d > 1.0 * d;
      }
      if q < 0.0 {
        assert q * d < 0.0;
      }
    }
  }

  lemma ScaleMonotone(x: real, y: real, lo: real, hi: real)
    requires lo < hi
    ensures x <= y <==> Scale(x, lo, hi) <= Scale(y, lo, hi)
  {
    var d := hi - lo;
    var sx, sy := Scale(x, lo, hi), Scale(y, lo, hi);
    assert sx * d == x - lo;
    assert sy * d == y - lo;
    if sx <= sy {
      assert sx * d <= sy * d;
    } else {
      assert sx * d > sy * d;
    }
  }

  /** The textbook min-max formula, defined only for a positive range: the distance
      of `x` from `lo` as a fraction of the distance from `lo` to `hi`. `Scale` adds
      the scaler's guard for a zero range; `ScaleIsMinMax` shows the two agree
      wherever the formula is defined. */
  function MinMax(x: real, lo: real, hi: real): real
    requires lo < hi
  {
    (x - lo) / (hi - lo)
  }

  lemma ScaleIsMinMax(x: real, lo: real, hi: real)
    requires lo < hi
    ensures Scale(x, lo, hi) == MinMax(x, lo, hi)
  {
  }

  /** For a column with a non-zero range, each rescaled value is given by the
      min-max formula over the filtered table's own minimum and maximum. */
  lemma NormalizedValue(rows: seq<Record>, cols: seq<Column>, c: Column, i: nat)
    requires c in cols && i < |rows|
    requires Lo(rows, c) < Hi(rows, c)
    ensures Get(Normalize(rows, cols).value[i], c) == MinMax(Get(rows[i], c), Lo(rows, c), Hi(rows, c))
  {
    NormalizeGet(rows, cols, i, c);
    ScaleIsMinMax(Get(rows[i], c), Lo(rows, c), Hi(rows, c));
  }

  /** Normalisation keeps the order of every rescaled column: one row's value is at
      most another's exactly when it was so before (for a non-constant column). */
  lemma NormalizedOrder(rows: seq<Record>, cols: seq<Column>, c: Column, i: nat, j: nat)
    requires c in cols && i < |rows| && j < |rows|
    requires Lo(rows, c) < Hi(rows, c)
    ensures var out := Normalize(rows, cols).value;
            Get(rows[i], c) <= Get(rows[j], c) <==> Get(out[i], c) <= Get(out[j], c)
  {
    NormalizeGet(rows, cols, i, c);
    NormalizeGet(rows, cols, j, c);
    ScaleMonotone(Get(rows[i], c), Get(rows[j], c), Lo(rows, c), Hi(rows, c));
  }

  /** A normalised column runs from 0 to 1, or is constantly 0. */
  lemma NormalizedBounds(rows: seq<Record>, cols: seq<Column>, c: Column)
    requires |rows| > 0 && c in cols
    ensures var out := Normalize(rows, cols).value;
            Lo(out, c) == 0.0 && (Hi(out, c) == 1.0 || Hi(out, c) == 0.0)
  {
    var out := Normalize(rows, cols).value;
    var lo, hi := Lo(rows, c), Hi(rows, c);
    var vs := ColumnValues(rows, c);
    var ws := ColumnValues(out, c);
    assert UnitColumn(rows, out, c);
    assert forall i :: 0 <= i < |ws| ==> 0.0 <= ws[i] <= 1.0;
    var k :| 0 <= k < |vs| && vs[k] == lo;
    assert Get(rows[k], c) == lo;
    assert ws[k] == 0.0;
    MinOfIs(ws, 0.0);
    if lo < hi {
      var m :| 0 <= m < |vs| && vs[m] == hi;
      assert Get(rows[m], c) == hi;
      assert ws[m] == 1.0;
      MaxOfIs(ws, 1.0);
    } else {
      assert forall i :: 0 <= i < |ws| ==> ws[i] == 0.0;
      MaxOfIs(ws, 0.0);
    }
  }

  lemma ScaleUnit(x: real, hi: real)
    requires hi == 1.0 || (hi == 0.0 && x == 0.0)
    ensures Scale(x, 0.0, hi) == x
  {
  }

  /** Renormalising leaves each row of a normalised table as it is. */
  lemma RenormalizeRow(rows: seq<Record>, cols: seq<Column>, i: nat)
    requires i < |rows|
    ensures var out := Normalize(rows, cols).value;
            Normalize(out, cols).value[i] == out[i]
  {
    var out := Normalize(rows, cols).value;
    var again := Normalize(out, cols).value;
    forall c: Column
      ensures Get(again[i], c) == Get(out[i], c)
    {
      NormalizeGet(out, cols, i, c);
      if c in cols {
        NormalizedBounds(rows, cols, c);
        if Hi(out, c) == 0.0 {
          var ws := ColumnValues(out, c);
          assert ws[i] == Get(out[i], c);
          assert 0.0 <= Get(out[i], c) <= 0.0;
        }
        ScaleUnit(Get(out[i], c), Hi(out, c));
      }
    }
    RecordExtensionality(again[i], out[i]);
  }

  /** Normalising an already normalised table changes nothing: its rescaled columns
      already run from 0 to 1 (or are constantly 0). */
  lemma NormalizeIdempotent(rows: seq<Record>, cols: seq<Column>)
    requires |rows| > 0
    ensures Normalize(Normalize(rows, cols).value, cols) == Normalize(rows, cols)
  {
    var out := Normalize(rows, cols).value;
    var again := Normalize(out, cols).value;
    forall i | 0 <= i < |out|
      ensures again[i] == out[i]
    {
      RenormalizeRow(rows, cols, i);
    }
    assert again == out;
  }
}
