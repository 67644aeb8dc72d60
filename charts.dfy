/**
 * The two charts drawn per column (app.py lines 126-147): a box plot per
 * procedure, ordered by group median, and a mean bar with a standard
 * deviation error bar per procedure, ordered by group mean. Only what is
 * plotted and in which order is modelled, not the drawing.
 */
module Charts {
  import opened Wrappers
  import opened Records
  import Sorting
  import Grouping
  import Statistics
  import Summary

  /** One box: its tick label and the values it summarises. */
  datatype Box = Box(procedure: string, values: seq<real>)

  /** One bar: its tick label, its height, the squared length of its error bar, and the group size. */
  datatype Bar = Bar(procedure: string, mean: real, variance: Option<real>, count: nat)

  /** Median of the `f` values of procedure `l`; a procedure without rows is never asked about. */
  function GroupMedian(d: seq<Record>, f: Field, l: string): real
  {
    var v := Grouping.GroupValues(d, l, f);
    if |v| > 0 then Statistics.Median(v) else 0.0
  }

  /** Mean of the `f` values of procedure `l`; a procedure without rows is never asked about. */
  function GroupMean(d: seq<Record>, f: Field, l: string): real
  {
    var v := Grouping.GroupValues(d, l, f);
    if |v| > 0 then Statistics.Mean(v) else 0.0
  }

  /** The tick labels of a chart, left to right, read from each mark by `name`. */
  function Ticks<T>(marks: seq<T>, name: T -> string): (ls: seq<string>)
    ensures |ls| == |marks|
    ensures forall i :: 0 <= i < |ls| ==> ls[i] == name(marks[i])
  {
    seq(|marks|, i requires 0 <= i < |marks| => name(marks[i]))
  }

  /** The procedure a box stands for. */
  function BoxLabel(b: Box): string
  {
    b.procedure
  }

  /** The procedure a bar stands for. */
  function BarLabel(b: Bar): string
  {
    b.procedure
  }

  /**
   * `boxplot_por_proc`: the procedures rearranged so that group medians
   * ascend (`groupby(...).median().sort_values()`), each with exactly its
   * own non-empty column of values (`df_in[df_in["procedimiento"] == p][var]`).
   */
  function BoxPlot(d: seq<Record>, f: Field): (boxes: seq<Box>)
    ensures multiset(Ticks(boxes, BoxLabel)) == multiset(Grouping.Procedures(d))
    ensures forall i :: 0 <= i < |boxes| ==>
      && boxes[i].values == Grouping.GroupValues(d, boxes[i].procedure, f)
      && |boxes[i].values| > 0
    ensures forall i, j :: 0 <= i < j < |boxes| ==>
      Statistics.Median(boxes[i].values) <= Statistics.Median(boxes[j].values)
  {
    var procs := Grouping.Procedures(d);
    var order := Sorting.SortByKey(procs, (l: string) => GroupMedian(d, f, l));
    var boxes := seq(|order|, i requires 0 <= i < |order| => Box(order[i], Grouping.GroupValues(d, order[i], f)));
    assert Ticks(boxes, BoxLabel) == order;
    forall i | 0 <= i < |boxes| ensures Grouping.HasLabel(d, order[i]) {
      assert order[i] in multiset(procs);
    }
    boxes
  }

  /**
   * `barras_media_std`: the procedures rearranged so that group means ascend
   * (`agg(["mean", "std", "count"]).sort_values("mean")`); each bar stands
   * at its group's mean, carries its group's sample variance (missing for a
   * group of one, which then has no error bar) and counts its group's rows.
   */
  function BarChart(d: seq<Record>, f: Field): (bars: seq<Bar>)
    ensures multiset(Ticks(bars, BarLabel)) == multiset(Grouping.Procedures(d))
    ensures forall i :: 0 <= i < |bars| ==>
      var v := Grouping.GroupValues(d, bars[i].procedure, f);
      && |v| > 0
      && bars[i].mean == Statistics.Mean(v)
      && bars[i].variance == Statistics.Variance(v)
      && bars[i].count == |v|
      && (bars[i].variance.None? <==> bars[i].count < 2)
    ensures forall i, j :: 0 <= i < j < |bars| ==> bars[i].mean <= bars[j].mean
  {
    var procs := Grouping.Procedures(d);
    var order := Sorting.SortByKey(procs, (l: string) => GroupMean(d, f, l));
    forall i | 0 <= i < |order| ensures Grouping.HasLabel(d, order[i]) {
      assert order[i] in multiset(procs);
    }
    var bars := seq(|order|, i requires 0 <= i < |order| =>
      var v := Grouping.GroupValues(d, order[i], f);
      Bar(order[i], Statistics.Mean(v), Statistics.Variance(v), |v|));
    assert Ticks(bars, BarLabel) == order;
    bars
  }

  /** The line of a summary table that describes procedure `l`, if any. */
  function RowFor(rows: seq<Summary.SummaryRow>, l: string): (r: Option<Summary.SummaryRow>)
    ensures r.Some? <==> exists i :: 0 <= i < |rows| && rows[i].procedure == l
    ensures r.Some? ==> r.value in rows && r.value.procedure == l
    decreases |rows|
  {
    if rows == [] then None
    else if rows[0].procedure == l then Some(rows[0])
    else
      var r := RowFor(rows[1..], l);
      assert r.Some? ==> r.value in rows;
      assert forall i :: 1 <= i < |rows| ==> rows[i] == rows[1..][i - 1];
      r
  }

  /** The summary line of a procedure that occurs describes exactly that procedure's values. */
  lemma SummaryLineOf(d: seq<Record>, f: Field, l: string)
    requires Grouping.HasLabel(d, l)
    ensures var r := RowFor(Summary.Summarize(d, f), l);
      r.Some? && r.value.stats == Statistics.Describe(Grouping.GroupValues(d, l, f))
  {
  }

  /** Each box's median is the `mediana` of its procedure's line in the summary table of the same column. */
  lemma BoxPlotAgreesWithSummary(d: seq<Record>, f: Field)
    ensures forall b :: b in BoxPlot(d, f) ==>
      var r := RowFor(Summary.Summarize(d, f), b.procedure);
      r.Some? && r.value.stats.median == Statistics.Median(b.values)
  {
    var boxes := BoxPlot(d, f);
    forall b | b in boxes
      ensures var r := RowFor(Summary.Summarize(d, f), b.procedure);
        r.Some? && r.value.stats.median == Statistics.Median(b.values)
    {
      var i :| 0 <= i < |boxes| && boxes[i] == b;
      assert b.procedure in Ticks(boxes, BoxLabel);
      assert b.procedure in Grouping.Procedures(d);
      SummaryLineOf(d, f, b.procedure);
    }
  }

  /**
   * Each bar's height, variance and count are the `media`, squared `std`
   * and `n` of its procedure's line in the summary table of the same column.
   */
  lemma BarChartAgreesWithSummary(d: seq<Record>, f: Field)
    ensures forall b :: b in BarChart(d, f) ==>
      var r := RowFor(Summary.Summarize(d, f), b.procedure);
      && r.Some? && r.value.stats.mean == b.mean
      && r.value.stats.variance == b.variance && r.value.stats.n == b.count
  {
    var bars := BarChart(d, f);
    forall b | b in bars
      ensures var r := RowFor(Summary.Summarize(d, f), b.procedure);
        && r.Some? && r.value.stats.mean == b.mean
        && r.value.stats.variance == b.variance && r.value.stats.n == b.count
    {
      var i :| 0 <= i < |bars| && bars[i] == b;
      assert b.procedure in Ticks(bars, BarLabel);
      assert b.procedure in Grouping.Procedures(d);
      SummaryLineOf(d, f, b.procedure);
    }
  }
}
