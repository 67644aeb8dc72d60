/**
 * Procedure labels and Python's ordering of `str` values: lexicographic
 * comparison by code point, which is what `sorted(...)` and a sorting
 * `groupby` use for a `procedimiento` column of text labels. (A column of
 * numeric codes would be read as numbers and ordered numerically; that case
 * is not modelled.)
 */
module Labels {

  /** `a < b` on Python strings. */
  predicate Less(a: string, b: string)
    decreases |a|
  {
    if a == [] then b != []
    else if b == [] then false
    else if a[0] != b[0] then a[0] < b[0]
    else Less(a[1..], b[1..])
  }

  lemma {:induction false} LessIrreflexive(a: string)
    ensures !Less(a, a)
    decreases |a|
  {
    if a != [] {
      LessIrreflexive(a[1..]);
    }
  }

  lemma {:induction false} LessTransitive(a: string, b: string, c: string)
    requires Less(a, b) && Less(b, c)
    ensures Less(a, c)
    decreases |a|
  {
    if a != [] && a[0] == b[0] && b[0] == c[0] {
      LessTransitive(a[1..], b[1..], c[1..]);
    }
  }

  lemma {:induction false} LessTotal(a: string, b: string)
    requires a != b
    ensures Less(a, b) || Less(b, a)
    decreases |a|
  {
    if a != [] && b != [] && a[0] == b[0] {
      assert a == [a[0]] + a[1..] && b == [b[0]] + b[1..];
      LessTotal(a[1..], b[1..]);
    }
  }

  /** Strictly ascending: sorted and free of duplicates. */
  predicate StrictlyAscending(s: seq<string>)
  {
    forall i, j :: 0 <= i < j < |s| ==> Less(s[i], s[j])
  }

  predicate Distinct(s: seq<string>)
  {
    forall i, j :: 0 <= i < j < |s| ==> s[i] != s[j]
  }

  lemma StrictlyAscendingIsDistinct(s: seq<string>)
    requires StrictlyAscending(s)
    ensures Distinct(s)
  {
    forall i, j | 0 <= i < j < |s|
      ensures s[i] != s[j]
    {
      LessIrreflexive(s[i]);
    }
  }

  /** Adds `x` to an ascending list of distinct labels, keeping it so. */
  function Insert(s: seq<string>, x: string): (r: seq<string>)
    requires StrictlyAscending(s)
    ensures StrictlyAscending(r)
    ensures forall y :: y in r <==> y in s || y == x
    decreases |s|
  {
    if s == [] then [x]
    else if x == s[0] then s
    else if Less(x, s[0]) then
      assert forall j :: 0 <= j < |s| ==> Less(x, s[j]) by {
        forall j | 0 <= j < |s| ensures Less(x, s[j]) {
          if j > 0 { LessTransitive(x, s[0], s[j]); }
        }
      }
      [x] + s
    else
      LessTotal(x, s[0]);
      var rest := Insert(s[1..], x);
      assert forall y :: y in rest ==> Less(s[0], y) by {
        forall y | y in rest ensures Less(s[0], y) {
          if y != x {
            var k :| 1 <= k < |s| && s[k] == y;
          }
        }
      }
      [s[0]] + rest
  }
}
