/** pandas-style `groupby(...).agg(...)` over the filtered table: one output row per
    key present, in sorted key order, each column reduced by a sum or a mean
    (final1.py:184, 251-254, 283, 384-386). */
module Aggregation {
  import opened Records
  import opened Sequences

  /** Column sum over a set of rows (pandas `.sum()`). */
  function Total(rows: seq<Record>, c: Column): real
    decreases |rows|
  {
    if |rows| == 0 then 0.0 else Get(rows[0], c) + Total(rows[1..], c)
  }

  lemma {:induction false} TotalAppend(a: seq<Record>, b: seq<Record>, c: Column)
    ensures Total(a + b, c) == Total(a, c) + Total(b, c)
    decreases |a|
  {
    if |a| == 0 {
      assert a + b == b;
    } else {
      assert (a + b)[1..] == a[1..] + b;
      TotalAppend(a[1..], b, c);
    }
  }

  /** The rows of group `k`, in table order. */
  function Members<K(==,!new)>(rows: seq<Record>, key: Record -> K, k: K): (m: seq<Record>)
    ensures forall r :: r in m <==> r in rows && key(r) == k
  {
    Keep(rows, (r: Record) => key(r) == k)
  }

  /** How one output column is computed from a group's rows. */
  datatype Reduction = SumOf(col: Column) | MeanOf(col: Column)

  function Reduce(rows: seq<Record>, red: Reduction): real {
    match red
    case SumOf(c) => Total(rows, c)
    case MeanOf(c) => if |rows| == 0 then 0.0 else Total(rows, c) / |rows| as real
  }

  /** One output row of a group-by: its key, how many rows fell into it and the
      reduced columns, in the order the reductions were requested. */
  datatype Group<K> = Group(key: K, size: nat, values: seq<real>)

  function MakeGroup<K(==,!new)>(rows: seq<Record>, key: Record -> K, k: K, reds: seq<Reduction>): Group<K> {
    var m := Members(rows, key, k);
    Group(k, |m|, seq(|reds|, j requires 0 <= j < |reds| => Reduce(m, reds[j])))
  }

  function GroupRows<K(==,!new)>(rows: seq<Record>, key: Record -> K, ks: seq<K>, reds: seq<Reduction>): (gs: seq<Group<K>>)
    ensures |gs| == |ks|
    ensures forall i :: 0 <= i < |ks| ==> gs[i] == MakeGroup(rows, key, ks[i], reds)
    decreases |ks|
  {
    if |ks| == 0 then [] else [MakeGroup(rows, key, ks[0], reds)] + GroupRows(rows, key, ks[1..], reds)
  }

  /** `ks` lists every key present in `rows` exactly once, and nothing else. */
  ghost predicate KeysOf<K(!new)>(ks: seq<K>, rows: seq<Record>, key: Record -> K) {
    Distinct(ks) && forall k :: k in ks <==> exists r :: r in rows && key(r) == k
  }

  /** Column `j` added up over all output rows. */
  function ColumnTotal<K>(gs: seq<Group<K>>, j: nat): real
    decreases |gs|
  {
    if |gs| == 0 then 0.0
    else (if j < |gs[0].values| then gs[0].values[j] else 0.0) + ColumnTotal(gs[1..], j)
  }

  /** Column `j` weighted by group size, added up over all output rows. */
  function WeightedTotal<K>(gs: seq<Group<K>>, j: nat): real
    decreases |gs|
  {
    if |gs| == 0 then 0.0
    else Weighted(gs[0], j) + WeightedTotal(gs[1..], j)
  }

  /** Column `j` of one output row times the row's group size. */
  function Weighted<K>(g: Group<K>, j: nat): real {
    if j < |g.values| then g.size as real * g.values[j] else 0.0
  }

  /** The total of `c` over each key's members, added up over `ks`. */
  function SplitTotal<K(==,!new)>(rows: seq<Record>, key: Record -> K, ks: seq<K>, c: Column): real
    decreases |ks|
  {
    if |ks| == 0 then 0.0 else Total(Members(rows, key, ks[0]), c) + SplitTotal(rows, key, ks[1..], c)
  }

  lemma {:induction false} SplitTotalAppend<K(!new)>(a: seq<Record>, b: seq<Record>, key: Record -> K, ks: seq<K>, c: Column)
    ensures SplitTotal(a + b, key, ks, c) == SplitTotal(a, key, ks, c) + SplitTotal(b, key, ks, c)
    decreases |ks|
  {
    if |ks| > 0 {
      KeepAppend(a, b, (r: Record) => key(r) == ks[0]);
      TotalAppend(Members(a, key, ks[0]), Members(b, key, ks[0]), c);
      SplitTotalAppend(a, b, key, ks[1..], c);
    }
  }

  lemma {:induction false} SplitTotalAbsent<K(!new)>(r: Record, key: Record -> K, ks: seq<K>, c: Column)
    requires key(r) !in ks
    ensures SplitTotal([r], key, ks, c) == 0.0
    decreases |ks|
  {
    if |ks| > 0 {
      assert Members([r], key, ks[0]) == [];
      SplitTotalAbsent(r, key, ks[1..], c);
    }
  }

  lemma {:induction false} SplitTotalSingle<K(!new)>(r: Record, key: Record -> K, ks: seq<K>, c: Column)
    requires Distinct(ks) && key(r) in ks
    ensures SplitTotal([r], key, ks, c) == Get(r, c)
    decreases |ks|
  {
    if ks[0] == key(r) {
      var m := Members([r], key, ks[0]);
      assert m == [r] by {
        assert [r][1..] == [];
      }
      assert Total(m, c) == Get(r, c) by {
        assert m[1..] == [];
      }
      assert key(r) !in ks[1..];
      SplitTotalAbsent(r, key, ks[1..], c);
    } else {
      assert Members([r], key, ks[0]) == [];
      SplitTotalSingle(r, key, ks[1..], c);
    }
  }

  /** Splitting rows by key and adding the parts back up loses and duplicates nothing. */
  lemma {:induction false} SplitTotalConserves<K(!new)>(rows: seq<Record>, key: Record -> K, ks: seq<K>, c: Column)
    requires Distinct(ks)
    requires forall r :: r in rows ==> key(r) in ks
    ensures SplitTotal(rows, key, ks, c) == Total(rows, c)
    decreases |rows|
  {
    if |rows| == 0 {
      SplitTotalEmpty(key, ks, c);
    } else {
      assert rows == [rows[0]] + rows[1..];
      SplitTotalAppend([rows[0]], rows[1..], key, ks, c);
      SplitTotalSingle(rows[0], key, ks, c);
      SplitTotalConserves(rows[1..], key, ks, c);
    }
  }

  lemma {:induction false} SplitTotalEmpty<K(!new)>(key: Record -> K, ks: seq<K>, c: Column)
    ensures SplitTotal([], key, ks, c) == 0.0
    decreases |ks|
  {
    if |ks| > 0 {
      SplitTotalEmpty(key, ks[1..], c);
    }
  }

  lemma {:induction false} ColumnTotalIsSplit<K(!new)>(rows: seq<Record>, key: Record -> K, ks: seq<K>, reds: seq<Reduction>, j: nat)
    requires j < |reds| && reds[j].SumOf?
    ensures ColumnTotal(GroupRows(rows, key, ks, reds), j) == SplitTotal(rows, key, ks, reds[j].col)
    decreases |ks|
  {
    if |ks| > 0 {
      var gs := GroupRows(rows, key, ks, reds);
      assert gs[1..] == GroupRows(rows, key, ks[1..], reds);
      ColumnTotalIsSplit(rows, key, ks[1..], reds, j);
    }
  }

  lemma {:induction false} WeightedTotalIsSplit<K(!new)>(rows: seq<Record>, key: Record -> K, ks: seq<K>, reds: seq<Reduction>, j: nat)
    requires j < |reds| && reds[j].MeanOf?
    ensures WeightedTotal(GroupRows(rows, key, ks, reds), j) == SplitTotal(rows, key, ks, reds[j].col)
    decreases |ks|
  {
    if |ks| > 0 {
      var gs := GroupRows(rows, key, ks, reds);
      assert gs[0] == MakeGroup(rows, key, ks[0], reds);
      MeanGroupWeight(rows, key, ks[0], reds, j);
      assert gs[1..] == GroupRows(rows, key, ks[1..], reds);
      WeightedTotalIsSplit(rows, key, ks[1..], reds, j);
    }
  }

  /** A group's mean times its size is the group's sum (an empty group has mean 0). */
  lemma MeanGroupWeight<K(!new)>(rows: seq<Record>, key: Record -> K, k: K, reds: seq<Reduction>, j: nat)
    requires j < |reds| && reds[j].MeanOf?
    ensures Weighted(MakeGroup(rows, key, k, reds), j) == Total(Members(rows, key, k), reds[j].col)
  {
    var m := Members(rows, key, k);
    var t := Total(m, reds[j].col);
    var g := MakeGroup(rows, key, k, reds);
    var v := g.values[j];
    assert g.size == |m|;
    assert v == Reduce(m, reds[j]);
    assert Weighted(g, j) == g.size as real * v;
    if |m| > 0 {
      assert v == t / |m| as real;
      MeanTimesSize(t, |m|, v);
    } else {
      assert t == 0.0;
    }
  }

  lemma MeanTimesSize(total: real, n: nat, mean: real)
    requires n > 0 && mean == total / n as real
    ensures n as real * mean == total
  {
  }

  /** The generic group-by: one output row per key of `ks`, in that order, whose size
      is the number of rows with that key and whose values reduce exactly those rows.
      A summed column adds up over the groups to the column's total over all rows;
      a mean column, weighted by group size, does too. */
  function GroupBy<K(==,!new)>(rows: seq<Record>, key: Record -> K, ks: seq<K>, reds: seq<Reduction>): (gs: seq<Group<K>>)
    requires KeysOf(ks, rows, key)
    ensures |gs| == |ks|
    ensures forall i :: 0 <= i < |gs| ==> gs[i].key == ks[i] && gs[i].size > 0
    ensures forall i :: 0 <= i < |gs| ==> gs[i].size == |Members(rows, key, ks[i])|
    ensures forall i, j :: 0 <= i < |gs| && 0 <= j < |reds| ==>
              |gs[i].values| == |reds| && gs[i].values[j] == Reduce(Members(rows, key, ks[i]), reds[j])
    ensures forall j :: 0 <= j < |reds| && reds[j].SumOf? ==> ColumnTotal(gs, j) == Total(rows, reds[j].col)
    ensures forall j :: 0 <= j < |reds| && reds[j].MeanOf? ==> WeightedTotal(gs, j) == Total(rows, reds[j].col)
  {
    var gs := GroupRows(rows, key, ks, reds);
    forall i | 0 <= i < |gs|
      ensures gs[i].size > 0
    {
      assert ks[i] in ks;
      var r :| r in rows && key(r) == ks[i];
      assert r in Members(rows, key, ks[i]);
    }
    forall j | 0 <= j < |reds| && reds[j].SumOf?
      ensures ColumnTotal(gs, j) == Total(rows, reds[j].col)
    {
      ColumnTotalIsSplit(rows, key, ks, reds, j);
      SplitTotalConserves(rows, key, ks, reds[j].col);
    }
    forall j | 0 <= j < |reds| && reds[j].MeanOf?
      ensures WeightedTotal(gs, j) == Total(rows, reds[j].col)
    {
      WeightedTotalIsSplit(rows, key, ks, reds, j);
      SplitTotalConserves(rows, key, ks, reds[j].col);
    }
    gs
  }

  /** The keys of the output rows, in output order. */
  function KeySeq<K>(gs: seq<Group<K>>): (ks: seq<K>)
    ensures |ks| == |gs| && forall i :: 0 <= i < |gs| ==> ks[i] == gs[i].key
  {
    seq(|gs|, i requires 0 <= i < |gs| => gs[i].key)
  }

  // Grouping by state

  function StateOf(r: Record): StateCode {
    r.state
  }

  predicate HasState(rows: seq<Record>, s: StateCode) {
    exists r :: r in rows && r.state == s
  }

  /** The states present in `rows`, in the order pandas sorts them. */
  function StateKeys(rows: seq<Record>): (ks: seq<StateCode>)
    ensures KeysOf(ks, rows, StateOf)
    ensures forall i, j :: 0 <= i < j < |ks| ==> StateRank(ks[i]) < StateRank(ks[j])
  {
    (if HasState(rows, ES) then [ES] else []) + (if HasState(rows, MG) then [MG] else [])
    + (if HasState(rows, RJ) then [RJ] else []) + (if HasState(rows, SP) then [SP] else [])
  }

  /** Cases per state for the pie chart (final1.py:184): one row per state present,
      in state order, holding that state's case total; the slices add up to the
      table's case total. */
  function CasesByState(rows: seq<Record>): (gs: seq<Group<StateCode>>)
    ensures KeysOf(KeySeq(gs), rows, StateOf)
    ensures forall i, j :: 0 <= i < j < |gs| ==> StateRank(gs[i].key) < StateRank(gs[j].key)
    ensures forall i :: 0 <= i < |gs| ==>
              var m := Members(rows, StateOf, gs[i].key);
              gs[i].size == |m| > 0 && gs[i].values == [Total(m, Cases)]
    ensures ColumnTotal(gs, 0) == Total(rows, Cases)
  {
    var ks := StateKeys(rows);
    var gs := GroupBy(rows, StateOf, ks, [SumOf(Cases)]);
    assert KeySeq(gs) == ks;
    forall i | 0 <= i < |gs|
      ensures var m := Members(rows, StateOf, gs[i].key);
              gs[i].size == |m| > 0 && gs[i].values == [Total(m, Cases)]
    {
      assert gs[i].key == ks[i] && |gs[i].values| == 1;
      assert gs[i].values[0] == Reduce(Members(rows, StateOf, ks[i]), SumOf(Cases));
    }
    gs
  }

  /** Cases and deaths per state for the grouped bar chart (final1.py:251-254): one
      row per state present, in state order; both columns add up to the table's totals. */
  function StateTotals(rows: seq<Record>): (gs: seq<Group<StateCode>>)
    ensures KeysOf(KeySeq(gs), rows, StateOf)
    ensures forall i, j :: 0 <= i < j < |gs| ==> StateRank(gs[i].key) < StateRank(gs[j].key)
    ensures forall i :: 0 <= i < |gs| ==>
              var m := Members(rows, StateOf, gs[i].key);
              gs[i].size == |m| > 0 && gs[i].values == [Total(m, Cases), Total(m, Deaths)]
    ensures ColumnTotal(gs, 0) == Total(rows, Cases)
    ensures ColumnTotal(gs, 1) == Total(rows, Deaths)
  {
    var ks := StateKeys(rows);
    var gs := GroupBy(rows, StateOf, ks, [SumOf(Cases), SumOf(Deaths)]);
    assert KeySeq(gs) == ks;
    forall i | 0 <= i < |gs|
      ensures var m := Members(rows, StateOf, gs[i].key);
              gs[i].size == |m| > 0 && gs[i].values == [Total(m, Cases), Total(m, Deaths)]
    {
      assert gs[i].key == ks[i] && |gs[i].values| == 2;
      assert gs[i].values[0] == Reduce(Members(rows, StateOf, ks[i]), SumOf(Cases));
      assert gs[i].values[1] == Reduce(Members(rows, StateOf, ks[i]), SumOf(Deaths));
    }
    gs
  }

  // Grouping by (year, month)

  /** A point of the monthly axis: pandas groups on the pair (ANO_IS, MES_IS). */
  datatype YearMonth = YearMonth(year: int, month: int)

  /** Lexicographic order on (year, month), the order pandas sorts the pairs in. */
  predicate Before(a: YearMonth, b: YearMonth) {
    a.year < b.year || (a.year == b.year && a.month < b.month)
  }

  predicate Chronological(ks: seq<YearMonth>) {
    forall i, j :: 0 <= i < j < |ks| ==> Before(ks[i], ks[j])
  }

  /** Adds `k` to a chronological key list, unless it is already there. */
  function InsertKey(k: YearMonth, ks: seq<YearMonth>): (out: seq<YearMonth>)
    requires Chronological(ks)
    ensures Chronological(out)
    ensures forall x :: x in out <==> x == k || x in ks
    decreases |ks|
  {
    if |ks| == 0 then [k]
    else if k == ks[0] then ks
    else if Before(k, ks[0]) then [k] + ks
    else
      var rest := InsertKey(k, ks[1..]);
      assert forall x :: x in ks[1..] ==> Before(ks[0], x) by {
        forall x | x in ks[1..] ensures Before(ks[0], x) {
          var i :| 0 <= i < |ks[1..]| && ks[1..][i] == x;
          assert ks[i + 1] == x;
        }
      }
      assert Before(ks[0], k);
      assert forall i :: 0 <= i < |rest| ==> Before(ks[0], rest[i]) by {
        forall i | 0 <= i < |rest| ensures Before(ks[0], rest[i]) {
          assert rest[i] in rest;
        }
      }
      [ks[0]] + rest
  }

  /** The distinct (year, month) keys of `rows`, oldest first. */
  function YearMonthKeys(rows: seq<Record>, key: Record -> YearMonth): (ks: seq<YearMonth>)
    ensures Chronological(ks)
    ensures KeysOf(ks, rows, key)
    decreases |rows|
  {
    if |rows| == 0 then []
    else
      var ks := InsertKey(key(rows[0]), YearMonthKeys(rows[1..], key));
      assert forall r :: r in rows <==> r == rows[0] || r in rows[1..] by {
        assert rows == [rows[0]] + rows[1..];
      }
      ks
  }

  function YearMonthOf(r: Record): YearMonth {
    YearMonth(r.year, r.month)
  }

  /** Cases per month for the monthly line chart (final1.py:283): one row per
      (year, month) present, oldest first, holding that month's case total; the
      rows add up to the table's case total. */
  function CasesByMonth(rows: seq<Record>): (gs: seq<Group<YearMonth>>)
    ensures KeysOf(KeySeq(gs), rows, YearMonthOf)
    ensures Chronological(KeySeq(gs))
    ensures forall i :: 0 <= i < |gs| ==>
              var m := Members(rows, YearMonthOf, gs[i].key);
              gs[i].size == |m| > 0 && gs[i].values == [Total(m, Cases)]
    ensures ColumnTotal(gs, 0) == Total(rows, Cases)
  {
    var ks := YearMonthKeys(rows, YearMonthOf);
    var gs := GroupBy(rows, YearMonthOf, ks, [SumOf(Cases)]);
    assert KeySeq(gs) == ks;
    forall i | 0 <= i < |gs|
      ensures var m := Members(rows, YearMonthOf, gs[i].key);
              gs[i].size == |m| > 0 && gs[i].values == [Total(m, Cases)]
    {
      assert gs[i].key == ks[i] && |gs[i].values| == 1;
      assert gs[i].values[0] == Reduce(Members(rows, YearMonthOf, ks[i]), SumOf(Cases));
    }
    gs
  }

  /** Mean of the selected climate column per month (final1.py:384-386): one row per
      (year, month) present, oldest first, holding the group's row count and the
      column's sum over those rows divided by that count; each mean times its group
      size is the group's sum, so the size-weighted means add up to the column's total. */
  function ClimateByMonth(rows: seq<Record>, v: ClimateVar): (gs: seq<Group<YearMonth>>)
    ensures KeysOf(KeySeq(gs), rows, YearMonthOf)
    ensures Chronological(KeySeq(gs))
    ensures forall i :: 0 <= i < |gs| ==>
              var m := Members(rows, YearMonthOf, gs[i].key);
              gs[i].size == |m| > 0 &&
              gs[i].values == [Total(m, ClimateColumn(v)) / |m| as real] &&
              Weighted(gs[i], 0) == Total(m, ClimateColumn(v))
    ensures WeightedTotal(gs, 0) == Total(rows, ClimateColumn(v))
  {
    var ks := YearMonthKeys(rows, YearMonthOf);
    var reds := [MeanOf(ClimateColumn(v))];
    var gs := GroupBy(rows, YearMonthOf, ks, reds);
    assert KeySeq(gs) == ks;
    forall i | 0 <= i < |gs|
      ensures Weighted(gs[i], 0) == Total(Members(rows, YearMonthOf, gs[i].key), ClimateColumn(v))
    {
      assert gs[i] == MakeGroup(rows, YearMonthOf, ks[i], reds);
      MeanGroupWeight(rows, YearMonthOf, ks[i], reds, 0);
    }
    gs
  }
}
