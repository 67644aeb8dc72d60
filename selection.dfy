/**
 * Boolean-mask row selection, `df[mask]`: the rows whose mask entry is true,
 * in their original order.
 */
module Selection {

  /** `a` is obtained from `b` by deleting elements, keeping the order of the rest. */
  predicate IsSubsequence<T(==)>(a: seq<T>, b: seq<T>)
    decreases |b|
  {
    if a == [] then true
    else if b == [] then false
    else (a[0] == b[0] && IsSubsequence(a[1..], b[1..])) || IsSubsequence(a, b[1..])
  }

  lemma {:induction false} SubsequenceNotLonger<T>(a: seq<T>, b: seq<T>)
    requires IsSubsequence(a, b)
    ensures |a| <= |b|
    decreases |b|
  {
    if a != [] {
      if a[0] == b[0] && IsSubsequence(a[1..], b[1..]) {
        SubsequenceNotLonger(a[1..], b[1..]);
      } else {
        SubsequenceNotLonger(a, b[1..]);
      }
    }
  }

  /**
   * The rows of `d` for which `keep` holds. Each kept row occurs in the
   * result exactly as often as in `d`, every dropped row not at all, and the
   * order of `d` is preserved.
   */
  function Select<T(==, !new)>(d: seq<T>, keep: T -> bool): (r: seq<T>)
    ensures IsSubsequence(r, d)
    ensures forall x :: multiset(r)[x] == if keep(x) then multiset(d)[x] else 0
    decreases |d|
  {
    if d == [] then []
    else
      var rest := Select(d[1..], keep);
      assert d == [d[0]] + d[1..];
      if keep(d[0]) then [d[0]] + rest else rest
  }

  lemma SelectMembership<T(!new)>(d: seq<T>, keep: T -> bool, x: T)
    ensures x in Select(d, keep) <==> x in d && keep(x)
  {
    assert x in Select(d, keep) <==> multiset(Select(d, keep))[x] > 0;
    assert x in d <==> multiset(d)[x] > 0;
  }

  lemma SelectNotLonger<T(!new)>(d: seq<T>, keep: T -> bool)
    ensures |Select(d, keep)| <= |d|
  {
    SubsequenceNotLonger(Select(d, keep), d);
  }

  /** Selecting again with the same mask changes nothing. */
  lemma {:induction false} SelectIdempotent<T(!new)>(d: seq<T>, keep: T -> bool)
    ensures Select(Select(d, keep), keep) == Select(d, keep)
    decreases |d|
  {
    if d != [] {
      SelectIdempotent(d[1..], keep);
    }
  }

  /** Two successive masks select what their conjunction selects, in either order. */
  lemma {:induction false} SelectCommutes<T(!new)>(d: seq<T>, p: T -> bool, q: T -> bool)
    ensures Select(Select(d, p), q) == Select(Select(d, q), p)
    decreases |d|
  {
    if d != [] {
      SelectCommutes(d[1..], p, q);
    }
  }

  /** Selecting from a row followed by more rows: that row if the mask keeps it, then the selection from the rest. */
  lemma SelectCons<T(!new)>(x: T, rest: seq<T>, keep: T -> bool)
    ensures Select([x] + rest, keep) == (if keep(x) then [x] else []) + Select(rest, keep)
  {
    assert ([x] + rest)[1..] == rest;
  }
}
