/**
 * The two-step filter of app.py lines 88-89 and the default range the
 * time slider offers (lines 84-86).
 */
module Filtering {
  import opened Wrappers
  import opened Records
  import Selection

  /** `df["procedimiento"].isin(sel_procs)`: a missing label is never selected. */
  predicate Selected(r: Record, sel: set<string>)
  {
    r.proc.Some? && r.proc.value in sel
  }

  /** `(t >= lo) & (t <= hi)` on the fluoroscopy time. */
  predicate InRange(r: Record, lo: real, hi: real)
  {
    lo <= r.time <= hi
  }

  /** The combined predicate of both masks. */
  predicate Keeps(r: Record, sel: set<string>, lo: real, hi: real)
  {
    Selected(r, sel) && InRange(r, lo, hi)
  }

  /**
   * `df_f`: first the procedure mask, then the time mask on what is left.
   * The result is an order-preserving subsequence of `d` holding each row
   * that passes both masks exactly as often as `d` does, and nothing else.
   */
  function Filter(d: seq<Record>, sel: set<string>, lo: real, hi: real): (df: seq<Record>)
    ensures Selection.IsSubsequence(df, d)
    ensures |df| <= |d|
    ensures forall r :: multiset(df)[r] == if Keeps(r, sel, lo, hi) then multiset(d)[r] else 0
  {
    var byProc := Selection.Select(d, (r: Record) => Selected(r, sel));
    var byTime := Selection.Select(byProc, (r: Record) => InRange(r, lo, hi));
    Selection.SelectNotLonger(d, (r: Record) => Selected(r, sel));
    Selection.SelectNotLonger(byProc, (r: Record) => InRange(r, lo, hi));
    SubsequenceTransitive(byTime, byProc, d);
    byTime
  }

  lemma {:induction false} SubsequenceTransitive(a: seq<Record>, b: seq<Record>, c: seq<Record>)
    requires Selection.IsSubsequence(a, b) && Selection.IsSubsequence(b, c)
    ensures Selection.IsSubsequence(a, c)
    decreases |c|
  {
    if a != [] {
      if b[0] == c[0] && Selection.IsSubsequence(b[1..], c[1..]) {
        if a[0] == b[0] && Selection.IsSubsequence(a[1..], b[1..]) {
          SubsequenceTransitive(a[1..], b[1..], c[1..]);
        } else {
          SubsequenceTransitive(a, b[1..], c[1..]);
        }
      } else {
        SubsequenceTransitive(a, b, c[1..]);
      }
    }
  }

  /** A row is in the filtered table if and only if it is in the table and passes both masks. */
  lemma FilterMembership(d: seq<Record>, sel: set<string>, lo: real, hi: real, r: Record)
    ensures r in Filter(d, sel, lo, hi) <==> r in d && Selected(r, sel) && lo <= r.time <= hi
  {
    var df := Filter(d, sel, lo, hi);
    assert r in df <==> multiset(df)[r] > 0;
    assert r in d <==> multiset(d)[r] > 0;
  }

  /** Rows of unselected procedures are dropped whatever the time range. */
  lemma UnselectedExcluded(d: seq<Record>, sel: set<string>, lo: real, hi: real, r: Record)
    requires r.proc.None? || r.proc.value !in sel
    ensures r !in Filter(d, sel, lo, hi)
  {
    FilterMembership(d, sel, lo, hi, r);
  }

  /** Filtering the filtered table again with the same criteria changes nothing. */
  lemma FilterIdempotent(d: seq<Record>, sel: set<string>, lo: real, hi: real)
    ensures Filter(Filter(d, sel, lo, hi), sel, lo, hi) == Filter(d, sel, lo, hi)
  {
    var p := (r: Record) => Selected(r, sel);
    var q := (r: Record) => InRange(r, lo, hi);
    var byProc := Selection.Select(d, p);
    calc {
      Filter(Filter(d, sel, lo, hi), sel, lo, hi);
      Selection.Select(Selection.Select(Selection.Select(Selection.Select(d, p), q), p), q);
      { Selection.SelectCommutes(byProc, q, p); }
      Selection.Select(Selection.Select(Selection.Select(byProc, p), q), q);
      { Selection.SelectIdempotent(d, p); }
      Selection.Select(Selection.Select(byProc, q), q);
      { Selection.SelectIdempotent(byProc, q); }
      Selection.Select(byProc, q);
    }
  }

  /** The order of the two masks does not matter. */
  lemma MaskOrderIrrelevant(d: seq<Record>, sel: set<string>, lo: real, hi: real)
    ensures Filter(d, sel, lo, hi) ==
      Selection.Select(Selection.Select(d, (r: Record) => InRange(r, lo, hi)), (r: Record) => Selected(r, sel))
  {
    Selection.SelectCommutes(d, (r: Record) => Selected(r, sel), (r: Record) => InRange(r, lo, hi));
  }

  /**
   * Python's `round(x, 1)` on an exact value: the nearest multiple of 0.1,
   * a tie going to the even tenth.
   */
  function Round1(x: real): (y: real)
    ensures x - 0.05 <= y <= x + 0.05
    ensures (y * 10.0).Floor as real == y * 10.0
  {
    var t := x * 10.0;
    var k := t.Floor;
    var frac := t - k as real;
    var m := if frac < 0.5 then k else if frac > 0.5 then k + 1 else if k % 2 == 0 then k else k + 1;
    m as real / 10.0
  }

  /** `df["tiempo_fluoro_min"].max()` over the whole table, missing labels included. */
  function MaxTime(d: seq<Record>): (t: real)
    requires d != []
    ensures exists r :: r in d && r.time == t
    ensures forall r :: r in d ==> r.time <= t
    decreases |d|
  {
    if |d| == 1 then d[0].time
    else
      var rest := MaxTime(d[1..]);
      assert d == [d[0]] + d[1..];
      if d[0].time >= rest then d[0].time else rest
  }

  /**
   * The slider's initial value `(0.0, round(tmax, 1))`; `None` for a table
   * without rows, where pandas' maximum is NaN.
   */
  function DefaultRange(d: seq<Record>): (range: Option<(real, real)>)
    ensures range.Some? <==> d != []
    ensures range.Some? ==> range.value.0 == 0.0 && MaxTime(d) - 0.05 <= range.value.1 <= MaxTime(d) + 0.05
  {
    if d == [] then None else Some((0.0, Round1(MaxTime(d))))
  }

  /**
   * Under the default range, a selected row with a non-negative time is lost
   * only when its time lies within 0.05 below the table's maximum, where
   * rounding the maximum down cuts it off.
   */
  lemma DefaultRangeDropsOnlyNearMaximum(d: seq<Record>, sel: set<string>, r: Record)
    requires r in d && Selected(r, sel) && 0.0 <= r.time
    ensures DefaultRange(d).Some?
    ensures var (lo, hi) := DefaultRange(d).value;
      r !in Filter(d, sel, lo, hi) ==> MaxTime(d) - 0.05 < r.time <= MaxTime(d)
  {
    var (lo, hi) := DefaultRange(d).value;
    FilterMembership(d, sel, lo, hi, r);
  }

  /** A row at 12.34 minutes, the table's maximum, is dropped by the default range (0.0, 12.3). */
  lemma DefaultRangeCanDropMaximum()
    ensures var d := [Record(Some("Coiling de aneurisma"), 10.0, 100.0, 12.34)];
      DefaultRange(d) == Some((0.0, 12.3)) &&
      Filter(d, {"Coiling de aneurisma"}, 0.0, 12.3) == []
  {
    var d := [Record(Some("Coiling de aneurisma"), 10.0, 100.0, 12.34)];
    assert MaxTime(d) == 12.34;
    assert (123.4).Floor == 123;
    assert Round1(12.34) == 12.3;
    FilterMembership(d, {"Coiling de aneurisma"}, 0.0, 12.3, d[0]);
  }
}
