/**
 * The procedure list offered by the multiselect (app.py line 79) and the
 * per-procedure groups that `groupby("procedimiento")` and the box plot's
 * `df_in[df_in["procedimiento"] == p]` form.
 */
module Grouping {
  import opened Wrappers
  import opened Records
  import Labels
  import Selection

  /** Some row of `d` carries the (non-missing) label `l`. */
  predicate HasLabel(d: seq<Record>, l: string)
  {
    exists r :: r in d && r.proc == Some(l)
  }

  /**
   * `sorted(df["procedimiento"].dropna().unique().tolist())`: every label
   * present in the data, once, in ascending order; missing labels are
   * dropped.
   */
  function Procedures(d: seq<Record>): (procs: seq<string>)
    ensures Labels.StrictlyAscending(procs)
    ensures forall l :: l in procs <==> HasLabel(d, l)
    decreases |d|
  {
    if d == [] then []
    else
      var rest := Procedures(d[1..]);
      assert d == [d[0]] + d[1..];
      match d[0].proc
      case None => rest
      case Some(l) => Labels.Insert(rest, l)
  }

  /**
   * The rows of procedure `l`, in table order: each row labelled `l` as
   * often as in `d`, and no other row.
   */
  function Group(d: seq<Record>, l: string): (g: seq<Record>)
    ensures Selection.IsSubsequence(g, d)
    ensures forall r :: multiset(g)[r] == if r.proc == Some(l) then multiset(d)[r] else 0
  {
    Selection.Select(d, (r: Record) => r.proc == Some(l))
  }

  /** A group is non-empty exactly when its label occurs in the data. */
  lemma GroupNonEmpty(d: seq<Record>, l: string)
    ensures |Group(d, l)| > 0 <==> HasLabel(d, l)
  {
    var g := Group(d, l);
    if HasLabel(d, l) {
      var r :| r in d && r.proc == Some(l);
      assert multiset(d)[r] > 0;
      assert multiset(g)[r] > 0;
    }
    if |g| > 0 {
      Selection.SelectMembership(d, (r: Record) => r.proc == Some(l), g[0]);
    }
  }

  /** Column `f` of some rows, as an array of values. */
  function Column(rows: seq<Record>, f: Field): (v: seq<real>)
    ensures |v| == |rows|
    ensures forall i :: 0 <= i < |v| ==> v[i] == Value(rows[i], f)
  {
    seq(|rows|, i requires 0 <= i < |rows| => Value(rows[i], f))
  }

  /**
   * `df_in[df_in["procedimiento"] == l][var].values`: the `f` values of
   * procedure `l`, in table order. It has one value per row of the group,
   * and is non-empty exactly when `l` occurs.
   */
  function GroupValues(d: seq<Record>, l: string, f: Field): (v: seq<real>)
    ensures |v| == |Group(d, l)|
    ensures forall i :: 0 <= i < |v| ==> v[i] == Value(Group(d, l)[i], f)
    ensures |v| > 0 <==> HasLabel(d, l)
  {
    GroupNonEmpty(d, l);
    Column(Group(d, l), f)
  }

  /** Sum of the group sizes of the labels in `ls`. */
  function GroupSizes(d: seq<Record>, ls: seq<string>): nat
    decreases |ls|
  {
    if ls == [] then 0 else |Group(d, ls[0])| + GroupSizes(d, ls[1..])
  }

  /** The rows whose label is not missing: those `groupby` keeps. */
  function Labelled(d: seq<Record>): seq<Record>
  {
    Selection.Select(d, (r: Record) => r.proc.Some?)
  }

  /** Removing the first row shrinks each listed group by one if it was that row's group. */
  lemma {:induction false} GroupSizesUncons(d: seq<Record>, ls: seq<string>)
    requires d != []
    requires Labels.Distinct(ls)
    ensures GroupSizes(d, ls) ==
      GroupSizes(d[1..], ls) + (if d[0].proc.Some? && d[0].proc.value in ls then 1 else 0)
    decreases |ls|
  {
    if ls != [] {
      assert Labels.Distinct(ls[1..]);
      GroupSizesUncons(d, ls[1..]);
      assert d[0].proc.Some? && d[0].proc.value in ls <==>
        d[0].proc == Some(ls[0]) || (d[0].proc.Some? && d[0].proc.value in ls[1..]);
    }
  }

  /**
   * Groups over a duplicate-free list that covers every label of `d`
   * partition the labelled rows.
   */
  lemma {:induction false} GroupSizesCover(d: seq<Record>, ls: seq<string>)
    requires Labels.Distinct(ls)
    requires forall l :: HasLabel(d, l) ==> l in ls
    ensures GroupSizes(d, ls) == |Labelled(d)|
    decreases |d|
  {
    if d == [] {
      GroupSizesOfEmpty(ls);
    } else {
      forall l | HasLabel(d[1..], l) ensures l in ls {
        var r :| r in d[1..] && r.proc == Some(l);
        assert r in d;
      }
      GroupSizesCover(d[1..], ls);
      GroupSizesUncons(d, ls);
      if d[0].proc.Some? {
        assert HasLabel(d, d[0].proc.value) by { assert d[0] in d; }
      }
    }
  }

  lemma {:induction false} GroupSizesOfEmpty(ls: seq<string>)
    ensures GroupSizes([], ls) == 0
    decreases |ls|
  {
    if ls != [] {
      GroupSizesOfEmpty(ls[1..]);
    }
  }

  /** The groups of the offered procedure list together hold every labelled row once. */
  lemma ProcedureGroupsPartition(d: seq<Record>)
    ensures GroupSizes(d, Procedures(d)) == |Labelled(d)|
  {
    Labels.StrictlyAscendingIsDistinct(Procedures(d));
    GroupSizesCover(d, Procedures(d));
  }
}
