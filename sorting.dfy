/**
 * Ordering values by a real-valued key: pandas' `sort_values()` on a
 * Series and `sort_values("mean")` on an aggregate frame, and the ordering
 * of a group's values that its median and quantiles are read from.
 */
module Sorting {

  /** `s` is in non-decreasing order of `key`. */
  ghost predicate Ascending<T>(s: seq<T>, key: T -> real)
  {
    forall i, j :: 0 <= i < j < |s| ==> key(s[i]) <= key(s[j])
  }

  /** An element whose key bounds every key of an ascending sequence from below may go in front. */
  lemma AscendingCons<T>(x: T, s: seq<T>, key: T -> real)
    requires Ascending(s, key)
    requires forall k :: 0 <= k < |s| ==> key(x) <= key(s[k])
    ensures Ascending([x] + s, key)
  {
    forall i, j | 0 <= i < j < |[x] + s|
      ensures key(([x] + s)[i]) <= key(([x] + s)[j])
    {
      if i > 0 {
        assert ([x] + s)[i] == s[i - 1];
      }
      assert ([x] + s)[j] == s[j - 1];
    }
  }

  /** Places `x` in front of the first element whose key is not below its own. */
  function InsertByKey<T>(s: seq<T>, x: T, key: T -> real): (r: seq<T>)
    requires Ascending(s, key)
    ensures Ascending(r, key)
    ensures multiset(r) == multiset(s) + multiset{x}
    decreases |s|
  {
    if s == [] || key(x) <= key(s[0]) then
      AscendingCons(x, s, key);
      [x] + s
    else
      var rest := InsertByKey(s[1..], x, key);
      assert s == [s[0]] + s[1..];
      assert forall k :: 0 <= k < |rest| ==> key(s[0]) <= key(rest[k]) by {
        forall k | 0 <= k < |rest| ensures key(s[0]) <= key(rest[k]) {
          assert rest[k] in multiset(s[1..]) + multiset{x};
          if rest[k] != x {
            assert rest[k] in s[1..];
          }
        }
      }
      AscendingCons(s[0], rest, key);
      [s[0]] + rest
  }

  /** An ascending rearrangement of `s` by `key`. */
  function SortByKey<T>(s: seq<T>, key: T -> real): (r: seq<T>)
    ensures Ascending(r, key)
    ensures multiset(r) == multiset(s)
    decreases |s|
  {
    if s == [] then []
    else
      assert s == [s[0]] + s[1..];
      InsertByKey(SortByKey(s[1..], key), s[0], key)
  }
}
