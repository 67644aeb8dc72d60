/**
 * One row of the dose table and the header check that guards the rest of
 * the page (app.py, "Validación mínima de columnas").
 */
module Records {
  import opened Wrappers

  /**
   * One procedure observation. `proc` is the `procedimiento` cell, which
   * pandas may hold as missing; the three dose metrics are exact reals.
   */
  datatype Record = Record(proc: Option<string>, dap: real, kar: real, time: real)

  /** The three numeric columns a summary or chart can be drawn for. */
  datatype Field = Dap | Kar | Time

  /** The column name under which `f` is read from the table. */
  function ColumnName(f: Field): string
  {
    match f
    case Dap => "DAP_Gycm2"
    case Kar => "Ka_r_mGy"
    case Time => "tiempo_fluoro_min"
  }

  const ProcColumn: string := "procedimiento"

  /** `cols_req`: the four columns the page cannot work without. */
  const RequiredColumns: set<string> := {ProcColumn, ColumnName(Dap), ColumnName(Kar), ColumnName(Time)}

  /** The `f` cell of a row. */
  function Value(r: Record, f: Field): real
  {
    match f
    case Dap => r.dap
    case Kar => r.kar
    case Time => r.time
  }

  /**
   * `faltantes = cols_req - set(df.columns)`: exactly the required columns
   * the header does not name. It is empty precisely when the header names
   * all four; extra columns never matter.
   */
  function MissingColumns(columns: seq<string>): (missing: set<string>)
    ensures missing <= RequiredColumns
    ensures forall c :: c in missing ==> c !in columns
    ensures forall c :: c in RequiredColumns && c !in columns ==> c in missing
    ensures missing == {} <==>
      (ProcColumn in columns && forall f: Field :: ColumnName(f) in columns)
  {
    var present := set c | c in columns;
    RequiredColumns - present
  }

  /** Adding columns to a header never makes a required column go missing. */
  lemma ExtraColumnsIgnored(columns: seq<string>, extra: seq<string>)
    ensures MissingColumns(columns + extra) <= MissingColumns(columns)
    ensures (forall c :: c in extra ==> c !in RequiredColumns) ==>
      MissingColumns(columns + extra) == MissingColumns(columns)
  {
  }
}
