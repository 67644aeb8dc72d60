/**
 * A worked example: three procedures' worth of rows, two for "A" with
 * fluoroscopy times 1.0 and 5.0 and one for "B" with time 3.0.
 */
module Scenarios {
  import opened Wrappers
  import opened Records
  import Selection
  import Filtering
  import Statistics
  import Labels
  import Grouping
  import Summary

  const A1: Record := Record(Some("A"), 10.0, 100.0, 1.0)
  const B3: Record := Record(Some("B"), 20.0, 200.0, 3.0)
  const A5: Record := Record(Some("A"), 30.0, 300.0, 5.0)
  const Rows: seq<Record> := [A1, B3, A5]

  /** The rows of the example that a mask keeps, in order. */
  lemma SelectRows(keep: Record -> bool)
    ensures Selection.Select(Rows, keep) ==
      (if keep(A1) then [A1] else []) + ((if keep(B3) then [B3] else []) + (if keep(A5) then [A5] else []))
  {
    var last := Selection.Select([A5], keep);
    Selection.SelectCons(A5, [], keep);
    assert [A5] == [A5] + [];
    var tail := Selection.Select([B3, A5], keep);
    Selection.SelectCons(B3, [A5], keep);
    assert [B3, A5] == [B3] + [A5];
    assert tail == (if keep(B3) then [B3] else []) + last;
    Selection.SelectCons(A1, [B3, A5], keep);
    assert Rows == [A1] + [B3, A5];
  }

  /** The rows of `[A1, A5]` that a mask keeps, in order. */
  lemma SelectAs(keep: Record -> bool)
    ensures Selection.Select([A1, A5], keep) == (if keep(A1) then [A1] else []) + (if keep(A5) then [A5] else [])
  {
    Selection.SelectCons(A5, [], keep);
    Selection.SelectCons(A1, [A5], keep);
    assert [A5] == [A5] + [];
    assert [A1, A5] == [A1] + [A5];
  }

  /** Choosing both procedures and the range [0, 10] keeps all three rows. */
  lemma KeepAll()
    ensures Filtering.Filter(Rows, {"A", "B"}, 0.0, 10.0) == Rows
  {
    var sel: set<string> := {"A", "B"};
    var p := (r: Record) => Filtering.Selected(r, sel);
    var q := (r: Record) => Filtering.InRange(r, 0.0, 10.0);
    assert p(A1) && p(B3) && p(A5);
    SelectRows(p);
    assert Selection.Select(Rows, p) == Rows;
    assert q(A1) && q(B3) && q(A5);
    SelectRows(q);
    assert Selection.Select(Rows, q) == Rows;
    assert Filtering.Filter(Rows, sel, 0.0, 10.0) == Selection.Select(Selection.Select(Rows, p), q);
  }

  /** Choosing only "A" drops the "B" row whatever the range. */
  lemma OnlyA()
    ensures Filtering.Filter(Rows, {"A"}, 0.0, 10.0) == [A1, A5]
  {
    var sel: set<string> := {"A"};
    var p := (r: Record) => Filtering.Selected(r, sel);
    var q := (r: Record) => Filtering.InRange(r, 0.0, 10.0);
    assert p(A1) && !p(B3) && p(A5);
    SelectRows(p);
    assert Selection.Select(Rows, p) == [A1, A5];
    assert q(A1) && q(A5);
    SelectAs(q);
    assert Selection.Select([A1, A5], q) == [A1, A5];
    assert Filtering.Filter(Rows, sel, 0.0, 10.0) == Selection.Select(Selection.Select(Rows, p), q);
  }

  /** The range [4, 10] keeps only the row at 5.0. */
  lemma LateOnly()
    ensures Filtering.Filter(Rows, {"A", "B"}, 4.0, 10.0) == [A5]
  {
    var sel: set<string> := {"A", "B"};
    var p := (r: Record) => Filtering.Selected(r, sel);
    var q := (r: Record) => Filtering.InRange(r, 4.0, 10.0);
    assert p(A1) && p(B3) && p(A5);
    SelectRows(p);
    assert !q(A1) && !q(B3) && q(A5);
    SelectRows(q);
    assert Selection.Select(Rows, p) == Rows;
    assert Selection.Select(Rows, q) == [A5];
    assert Filtering.Filter(Rows, sel, 4.0, 10.0) == Selection.Select(Selection.Select(Rows, p), q);
  }

  /** The procedure list of the example is "A" then "B". */
  lemma RowsProcedures()
    ensures Grouping.Procedures(Rows) == ["A", "B"]
  {
    assert [A5][1..] == [];
    assert Grouping.Procedures([A5]) == ["A"];
    assert [B3, A5][1..] == [A5];
    assert Labels.Less("A", "B");
    assert ["A"][1..] == [];
    assert Labels.Insert(["A"], "B") == ["A", "B"];
    assert Grouping.Procedures([B3, A5]) == ["A", "B"];
    assert Rows[1..] == [B3, A5];
  }

  /** The rows of "A" are the first and the last, and the row of "B" is the middle one. */
  lemma RowsGroups()
    ensures Grouping.Group(Rows, "A") == [A1, A5]
    ensures Grouping.Group(Rows, "B") == [B3]
  {
    SelectRows((r: Record) => r.proc == Some("A"));
    SelectRows((r: Record) => r.proc == Some("B"));
  }

  /** The fluoroscopy times of "A" are 1.0 and 5.0, in table order. */
  lemma TimesOfA()
    ensures Grouping.GroupValues(Rows, "A", Time) == [1.0, 5.0]
  {
    RowsGroups();
    var v := Grouping.GroupValues(Rows, "A", Time);
    assert |v| == 2 && v[0] == A1.time && v[1] == A5.time;
  }

  /** The fluoroscopy time of "B" is 3.0. */
  lemma TimesOfB()
    ensures Grouping.GroupValues(Rows, "B", Time) == [3.0]
  {
    RowsGroups();
    var v := Grouping.GroupValues(Rows, "B", Time);
    assert |v| == 1 && v[0] == B3.time;
  }

  /** Two ordered values sort to themselves. */
  lemma SortPair(a: real, b: real)
    requires a <= b
    ensures Statistics.Sort([a, b]) == [a, b]
  {
    var s := Statistics.Sort([a, b]);
    assert s == [s[0], s[1]];
    assert s[0] in multiset([a, b]) && s[1] in multiset([a, b]);
  }

  /** One value sorts to itself. */
  lemma SortSingle(a: real)
    ensures Statistics.Sort([a]) == [a]
  {
    var s := Statistics.Sort([a]);
    assert s == [s[0]];
    assert s[0] in multiset([a]);
  }

  /** Times 1.0 and 5.0: median 3 and 75th percentile 4. */
  lemma OrderStatisticsA()
    ensures Statistics.Median([1.0, 5.0]) == 3.0
    ensures Statistics.Quantile([1.0, 5.0], 0.75) == 4.0
  {
    SortPair(1.0, 5.0);
    assert Statistics.VirtualIndex(2, 0.75) == 0.75;
    assert (0.75).Floor == 0;
    assert Statistics.Lerp(1.0, 5.0, 0.75) == 4.0;
  }

  /** Times 1.0 and 5.0: mean 3 and sample variance 8. */
  lemma MomentsA()
    ensures Statistics.Mean([1.0, 5.0]) == 3.0
    ensures Statistics.Variance([1.0, 5.0]) == Some(8.0)
  {
    var v := [1.0, 5.0];
    assert v[1..] == [5.0] && [5.0][1..] == [];
    assert Statistics.Sum(v) == 6.0;
    assert Statistics.SumSquares(v, 3.0) == 8.0;
  }

  /** Times 1.0 and 5.0: mean 3, median 3, 75th percentile 4, sample variance 8, range 1 to 5. */
  lemma DescribeA()
    ensures Statistics.Describe([1.0, 5.0]) == Statistics.GroupStats(2, 3.0, 3.0, 4.0, Some(8.0), 1.0, 5.0)
  {
    var v := [1.0, 5.0];
    OrderStatisticsA();
    MomentsA();
    assert v[1..] == [5.0];
    assert Statistics.Min(v) == 1.0 && Statistics.Max(v) == 5.0;
  }

  /** A single time 3.0: every statistic 3 and no variance. */
  lemma DescribeB()
    ensures Statistics.Describe([3.0]) == Statistics.GroupStats(1, 3.0, 3.0, 3.0, None, 3.0, 3.0)
  {
    var v := [3.0];
    assert v[1..] == [];
    assert Statistics.Mean(v) == 3.0;
    SortSingle(3.0);
    assert Statistics.Median(v) == 3.0;
    assert Statistics.VirtualIndex(1, 0.75) == 0.0;
    assert Statistics.Quantile(v, 0.75) == 3.0;
  }

  /**
   * The time summary: "A" has two rows with mean 3, median 3, 75th
   * percentile 4, sample variance 8 (standard deviation about 2.83), range
   * 1 to 5; "B" has one row, every statistic 3, and no standard deviation.
   */
  lemma TimeSummary()
    ensures Summary.Summarize(Rows, Time) == [
      Summary.SummaryRow("A", Statistics.GroupStats(2, 3.0, 3.0, 4.0, Some(8.0), 1.0, 5.0)),
      Summary.SummaryRow("B", Statistics.GroupStats(1, 3.0, 3.0, 3.0, None, 3.0, 3.0))]
  {
    RowsProcedures();
    TimesOfA();
    TimesOfB();
    DescribeA();
    DescribeB();
  }
}
