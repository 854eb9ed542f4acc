/**
 * The array operations the site's logic is written with (`find`, `filter`,
 * `slice(0, n)`), as functions on sequences, with the contracts that the
 * catalogue queries, the listing sections and the related-posts rule rely on.
 */
module Seqs {
  import opened Wrappers

  /** `r` can be obtained from `s` by deleting elements: `r` keeps `s`'s order. */
  ghost predicate IsSubsequence<T>(r: seq<T>, s: seq<T>)
    decreases |s|
  {
    r == [] ||
    (s != [] && ((r[0] == s[0] && IsSubsequence(r[1..], s[1..])) || IsSubsequence(r, s[1..])))
  }

  /**
   * `r` is exactly the elements of `s` that satisfy `keep`, each as often as
   * in `s`, in `s`'s order. (Together these determine `r` uniquely.)
   */
  ghost predicate Selects<T>(r: seq<T>, s: seq<T>, keep: T -> bool)
  {
    && IsSubsequence(r, s)
    && (forall x :: x in r ==> x in s && keep(x))
    && (forall x :: x in s ==> multiset(r)[x] == if keep(x) then multiset(s)[x] else 0)
  }

  /** `Array.prototype.filter`. */
  function Filter<T>(s: seq<T>, keep: T -> bool): (r: seq<T>)
    ensures |r| <= |s|
    ensures Selects(r, s, keep)
  {
    if s == [] then []
    else
      var rest := Filter(s[1..], keep);
      assert s == [s[0]] + s[1..];
      if keep(s[0]) then
        assert ([s[0]] + rest)[1..] == rest;
        [s[0]] + rest
      else
        rest
  }

  /** `k` is the first position of `s` whose element satisfies `test`. */
  ghost predicate IsFirstMatch<T>(s: seq<T>, test: T -> bool, k: int)
  {
    0 <= k < |s| && test(s[k]) && forall j :: 0 <= j < k ==> !test(s[j])
  }

  /** The position `Array.prototype.find` stops at, if any. */
  function FindIndex<T>(s: seq<T>, test: T -> bool): (r: Option<nat>)
    ensures r.Some? ==> IsFirstMatch(s, test, r.value)
    ensures r.None? <==> forall j :: 0 <= j < |s| ==> !test(s[j])
  {
    if s == [] then None
    else if test(s[0]) then Some(0)
    else
      match FindIndex(s[1..], test)
      case None => None
      case Some(k) => Some(k + 1)
  }

  /** `Array.prototype.find`: the first element that satisfies `test`. */
  function Find<T>(s: seq<T>, test: T -> bool): (r: Option<T>)
    ensures r.Some? ==> exists k :: IsFirstMatch(s, test, k) && s[k] == r.value
    ensures r.None? <==> forall x :: x in s ==> !test(x)
  {
    match FindIndex(s, test)
    case None => None
    case Some(k) => Some(s[k])
  }

  /** `slice(0, n)`: the first `n` elements, or all of them when there are fewer. */
  function Take<T>(s: seq<T>, n: nat): (r: seq<T>)
    ensures |r| == if n < |s| then n else |s|
    ensures r <= s
  {
    if n < |s| then s[..n] else s
  }

  /** A filter keeps at least one element whenever some element passes. */
  lemma FilterNonEmpty<T>(s: seq<T>, keep: T -> bool, k: nat)
    requires k < |s| && keep(s[k])
    ensures Filter(s, keep) != []
  {
    var r := Filter(s, keep);
    assert s[k] in s;
    assert multiset(r)[s[k]] == multiset(s)[s[k]] > 0;
  }

  /** When exactly one element passes, the filter gives that element alone. */
  lemma {:induction false} FilterSingle<T>(s: seq<T>, keep: T -> bool, k: nat)
    requires k < |s| && keep(s[k])
    requires forall j :: 0 <= j < |s| && j != k ==> !keep(s[j])
    ensures Filter(s, keep) == [s[k]]
  {
    if k == 0 {
      FilterNone(s[1..], keep);
    } else {
      FilterSingle(s[1..], keep, k - 1);
    }
  }

  /** When no element passes, the filter is empty. */
  lemma {:induction false} FilterNone<T>(s: seq<T>, keep: T -> bool)
    requires forall j :: 0 <= j < |s| ==> !keep(s[j])
    ensures Filter(s, keep) == []
  {
    if s != [] {
      FilterNone(s[1..], keep);
    }
  }
}
