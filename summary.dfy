/**
 * `resumen(df_in, var)` (app.py lines 96-107): one row per procedure, in the
 * ascending label order `groupby` produces, carrying that procedure's
 * statistics for column `var`.
 */
module Summary {
  import opened Records
  import Labels
  import Selection
  import Grouping
  import Statistics

  /** One line of the table: the `procedimiento` column that `reset_index` restores, and the statistics. */
  datatype SummaryRow = SummaryRow(procedure: string, stats: Statistics.GroupStats)

  /**
   * The summary table of column `f`. Its labels ascend strictly, so no
   * procedure is listed twice; a procedure is listed exactly when some row
   * carries it; each line describes exactly that procedure's values, so its
   * count is the size of that procedure's group.
   */
  function Summarize(d: seq<Record>, f: Field): (rows: seq<SummaryRow>)
    ensures |rows| == |Grouping.Procedures(d)|
    ensures forall i :: 0 <= i < |rows| ==> rows[i].procedure == Grouping.Procedures(d)[i]
    ensures forall i, j :: 0 <= i < j < |rows| ==> Labels.Less(rows[i].procedure, rows[j].procedure)
    ensures forall l :: (exists i :: 0 <= i < |rows| && rows[i].procedure == l) <==> Grouping.HasLabel(d, l)
    ensures forall i :: 0 <= i < |rows| ==>
      && rows[i].stats.n == |Grouping.Group(d, rows[i].procedure)|
      && |Grouping.GroupValues(d, rows[i].procedure, f)| > 0
      && rows[i].stats == Statistics.Describe(Grouping.GroupValues(d, rows[i].procedure, f))
  {
    var procs := Grouping.Procedures(d);
    var rows := seq(|procs|, i requires 0 <= i < |procs| =>
      SummaryRow(procs[i], Statistics.Describe(Grouping.GroupValues(d, procs[i], f))));
    assert forall l :: (exists i :: 0 <= i < |rows| && rows[i].procedure == l) <==> l in procs by {
      forall l ensures (exists i :: 0 <= i < |rows| && rows[i].procedure == l) <==> l in procs {
        if l in procs {
          var i :| 0 <= i < |procs| && procs[i] == l;
          assert rows[i].procedure == l;
        }
      }
    }
    rows
  }

  /** The procedure a summary line describes. */
  function RowLabel(row: SummaryRow): string
  {
    row.procedure
  }

  /** The `n` column added up. */
  function TotalN(rows: seq<SummaryRow>): nat
    decreases |rows|
  {
    if rows == [] then 0 else rows[0].stats.n + TotalN(rows[1..])
  }

  /** The lines from the `k`-th on count as many rows as the groups of the procedures from the `k`-th on. */
  lemma {:induction false} TotalNFrom(d: seq<Record>, f: Field, k: nat)
    requires k <= |Grouping.Procedures(d)|
    ensures TotalN(Summarize(d, f)[k..]) == Grouping.GroupSizes(d, Grouping.Procedures(d)[k..])
    decreases |Grouping.Procedures(d)| - k
  {
    var rows, procs := Summarize(d, f), Grouping.Procedures(d);
    if k < |procs| {
      TotalNFrom(d, f, k + 1);
      assert rows[k..][1..] == rows[k + 1..];
      assert procs[k..][1..] == procs[k + 1..];
    }
  }

  /**
   * The `n` column adds up to the number of rows whose procedure is not
   * missing: `groupby` drops rows with a missing label and puts every other
   * row in exactly one group.
   */
  lemma SummaryCountsAllLabelledRows(d: seq<Record>, f: Field)
    ensures TotalN(Summarize(d, f)) == |Grouping.Labelled(d)|
  {
    TotalNFrom(d, f, 0);
    assert Summarize(d, f)[0..] == Summarize(d, f);
    assert Grouping.Procedures(d)[0..] == Grouping.Procedures(d);
    Grouping.ProcedureGroupsPartition(d);
  }

  /** When no row has a missing procedure the `n` column adds up to the number of rows. */
  lemma SummaryCountsAllRows(d: seq<Record>, f: Field)
    requires forall r :: r in d ==> r.proc.Some?
    ensures TotalN(Summarize(d, f)) == |d|
  {
    SummaryCountsAllLabelledRows(d, f);
    var labelled := Grouping.Labelled(d);
    assert multiset(labelled) == multiset(d) by {
      forall r ensures multiset(labelled)[r] == multiset(d)[r] {
        if multiset(d)[r] > 0 {
          assert r in d;
        }
      }
    }
    assert |multiset(labelled)| == |multiset(d)|;
  }
}
