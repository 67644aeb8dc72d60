/**
 * One pass of the page from the loaded table to what it shows (app.py lines
 * 65-163): the header check stops the page with the missing columns;
 * otherwise the table is filtered by the chosen procedures and time range,
 * and each of the three dose columns gets a summary table, a box plot and a
 * bar chart drawn from the filtered rows.
 */
module Dashboard {
  import opened Wrappers
  import opened Records
  import Selection
  import Grouping
  import Filtering
  import Summary
  import Charts

  /** What the page shows for one dose column: its tab and its two charts. */
  datatype Panel = Panel(field: Field, summary: seq<Summary.SummaryRow>, boxes: seq<Charts.Box>, bars: seq<Charts.Bar>)

  /** The filtered rows (whose count the caption reports) and one panel per dose column. */
  datatype Report = Report(filtered: seq<Record>, panels: seq<Panel>)

  /**
   * The tab and the two charts of column `f` drawn from the rows `df`
   * (app.py lines 113-121 and 154-162). The box plot and the bar chart show
   * the same procedures as the summary table, each once, only in another
   * order.
   */
  function PanelOf(df: seq<Record>, f: Field): (p: Panel)
    ensures p.field == f
    ensures multiset(Charts.Ticks(p.boxes, Charts.BoxLabel)) == multiset(Charts.Ticks(p.summary, Summary.RowLabel))
    ensures multiset(Charts.Ticks(p.bars, Charts.BarLabel)) == multiset(Charts.Ticks(p.summary, Summary.RowLabel))
  {
    var rows := Summary.Summarize(df, f);
    assert Charts.Ticks(rows, Summary.RowLabel) == Grouping.Procedures(df);
    Panel(f, rows, Charts.BoxPlot(df, f), Charts.BarChart(df, f))
  }

  /** The DAP, Ka,r and time panels drawn from the rows `df`, in the order of the tabs. */
  function Panels(df: seq<Record>): (ps: seq<Panel>)
    ensures |ps| == 3 && ps[0].field == Dap && ps[1].field == Kar && ps[2].field == Time
  {
    [PanelOf(df, Dap), PanelOf(df, Kar), PanelOf(df, Time)]
  }

  /**
   * What the page shows once the header check has passed: the filtered rows
   * are the table under both masks, so an order-preserving selection of `d`
   * that all pass them; the panels are those of the filtered rows; every
   * procedure listed in a panel is a chosen one; and every panel's `n`
   * column adds up to the number of filtered rows.
   */
  function Show(d: seq<Record>, sel: set<string>, lo: real, hi: real): (rep: Report)
    ensures rep.filtered == Filtering.Filter(d, sel, lo, hi)
    ensures rep.panels == Panels(rep.filtered)
    ensures Selection.IsSubsequence(rep.filtered, d)
    ensures forall r :: r in rep.filtered ==> Filtering.Keeps(r, sel, lo, hi)
    ensures forall p :: p in rep.panels ==> CoversChosen(p, rep.filtered, sel)
  {
    var df := Filtering.Filter(d, sel, lo, hi);
    FilteredRowsKept(d, sel, lo, hi);
    PanelsCoverChosen(df, sel, lo, hi);
    Report(df, Panels(df))
  }

  /**
   * The page for a table with header `columns` and rows `d`, the chosen
   * procedures `sel` and the chosen time range `[lo, hi]`: it stops exactly
   * when a required column is absent, reporting every absent one, and shows
   * the filtered data otherwise.
   */
  function Run(columns: seq<string>, d: seq<Record>, sel: set<string>, lo: real, hi: real)
    : (out: Result<Report, set<string>>)
    ensures out.Failure? <==> MissingColumns(columns) != {}
    ensures out.Failure? ==> out.error == MissingColumns(columns)
    ensures out.Failure? ==>
      && out.error != {} && out.error <= RequiredColumns
      && forall c :: c in out.error ==> c !in columns
    ensures out.Success? ==> out.value == Show(d, sel, lo, hi)
  {
    var missing := MissingColumns(columns);
    if missing != {} then Failure(missing) else Success(Show(d, sel, lo, hi))
  }

  /** Every row that survives the filter passes both masks. */
  lemma FilteredRowsKept(d: seq<Record>, sel: set<string>, lo: real, hi: real)
    ensures forall r :: r in Filtering.Filter(d, sel, lo, hi) ==> Filtering.Keeps(r, sel, lo, hi)
  {
    forall r | r in Filtering.Filter(d, sel, lo, hi) ensures Filtering.Keeps(r, sel, lo, hi) {
      Filtering.FilterMembership(d, sel, lo, hi, r);
    }
  }

  /** The summary of panel `p` lists only chosen procedures and its `n` column counts every row of `df`. */
  predicate CoversChosen(p: Panel, df: seq<Record>, sel: set<string>)
  {
    && (forall row :: row in p.summary ==> row.procedure in sel)
    && Summary.TotalN(p.summary) == |df|
  }

  /** Every panel drawn from rows that all pass the masks lists only chosen procedures and counts every row. */
  lemma PanelsCoverChosen(df: seq<Record>, sel: set<string>, lo: real, hi: real)
    requires forall r :: r in df ==> Filtering.Keeps(r, sel, lo, hi)
    ensures forall p :: p in Panels(df) ==> CoversChosen(p, df, sel)
  {
    PanelFacts(df, sel, lo, hi, Dap);
    PanelFacts(df, sel, lo, hi, Kar);
    PanelFacts(df, sel, lo, hi, Time);
  }

  /** A panel drawn from rows that all pass the masks lists only chosen procedures and counts every row. */
  lemma PanelFacts(df: seq<Record>, sel: set<string>, lo: real, hi: real, f: Field)
    requires forall r :: r in df ==> Filtering.Keeps(r, sel, lo, hi)
    ensures PanelOf(df, f).field == f
    ensures CoversChosen(PanelOf(df, f), df, sel)
  {
    var rows := Summary.Summarize(df, f);
    forall row | row in rows ensures row.procedure in sel {
      var i :| 0 <= i < |rows| && rows[i] == row;
      assert Grouping.HasLabel(df, row.procedure);
    }
    Summary.SummaryCountsAllRows(df, f);
  }
}
