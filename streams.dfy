/**
 * The two shapes of Java stream pipeline the registry is built from:
 * `xs.stream().filter(p).collect(toList())` with a pure predicate (Filter), and the same with a
 * predicate that may throw (TryFilter), where the first exception, in list order, escapes `collect`.
 */
module Streams {
  import opened Wrappers

  /** The elements of `xs` that satisfy `p`, in their order in `xs`. */
  function Filter<T>(xs: seq<T>, p: T -> bool): (r: seq<T>)
    ensures |r| <= |xs|
    ensures forall i :: 0 <= i < |r| ==> p(r[i]) && r[i] in xs
    ensures forall i :: 0 <= i < |xs| && p(xs[i]) ==> xs[i] in r
  {
    if |xs| == 0 then []
    else if p(xs[0]) then [xs[0]] + Filter(xs[1..], p)
    else Filter(xs[1..], p)
  }

  /** `a` is obtained from `b` by deleting elements, without reordering the rest. */
  ghost predicate IsSubsequence<T>(a: seq<T>, b: seq<T>)
    decreases |b|
  {
    if |a| == 0 then true
    else if |b| == 0 then false
    else (a[0] == b[0] && IsSubsequence(a[1..], b[1..])) || IsSubsequence(a, b[1..])
  }

  lemma {:induction false} FilterIsSubsequence<T>(xs: seq<T>, p: T -> bool)
    ensures IsSubsequence(Filter(xs, p), xs)
  {
    if |xs| > 0 {
      FilterIsSubsequence(xs[1..], p);
    }
  }

  /** A filter sees its predicate only on the elements of the list. */
  lemma {:induction false} FilterExtensional<T>(xs: seq<T>, p: T -> bool, q: T -> bool)
    requires forall i :: 0 <= i < |xs| ==> p(xs[i]) == q(xs[i])
    ensures Filter(xs, p) == Filter(xs, q)
  {
    if |xs| > 0 {
      FilterExtensional(xs[1..], p, q);
    }
  }

  lemma {:induction false} FilterAppend<T>(a: seq<T>, b: seq<T>, p: T -> bool)
    ensures Filter(a + b, p) == Filter(a, p) + Filter(b, p)
  {
    if |a| == 0 {
      assert a + b == b;
    } else {
      assert (a + b)[1..] == a[1..] + b;
      FilterAppend(a[1..], b, p);
    }
  }

  /** An element the predicate rejects changes nothing, wherever it is inserted. */
  lemma {:induction false} FilterIgnoresRejected<T>(xs: seq<T>, x: T, k: nat, p: T -> bool)
    requires k <= |xs| && !p(x)
    ensures Filter(xs[..k] + [x] + xs[k..], p) == Filter(xs, p)
  {
    var s := xs[..k] + [x] + xs[k..];
    if k == 0 {
      assert s[1..] == xs;
    } else {
      FilterIgnoresRejected(xs[1..], x, k - 1, p);
      assert s[0] == xs[0];
      assert s[1..] == xs[1..][..k - 1] + [x] + xs[1..][k - 1..];
    }
  }

  /** Filtering by `p` and then by `q` keeps what one filter by "`p` and `q`" keeps. */
  lemma {:induction false} FilterFilter<T>(xs: seq<T>, p: T -> bool, q: T -> bool, pq: T -> bool)
    requires forall i :: 0 <= i < |xs| ==> pq(xs[i]) == (p(xs[i]) && q(xs[i]))
    ensures Filter(Filter(xs, p), q) == Filter(xs, pq)
  {
    if |xs| > 0 {
      FilterFilter(xs[1..], p, q, pq);
    }
  }

  /** The filter is empty exactly when no element satisfies the predicate. */
  lemma FilterEmpty<T>(xs: seq<T>, p: T -> bool)
    ensures Filter(xs, p) == [] <==> forall i :: 0 <= i < |xs| ==> !p(xs[i])
  {
    if Filter(xs, p) != [] {
      var r := Filter(xs, p);
      assert p(r[0]) && r[0] in xs;
    }
  }

  /** The filter keeps two or more elements exactly when two positions of `xs` satisfy the predicate. */
  lemma FilterAtLeastTwo<T>(xs: seq<T>, p: T -> bool)
    ensures |Filter(xs, p)| >= 2 <==>
            exists i, j :: 0 <= i < j < |xs| && p(xs[i]) && p(xs[j])
  {
    if |Filter(xs, p)| >= 2 {
      FilterKeepsPair(xs, p);
    }
    if exists i, j :: 0 <= i < j < |xs| && p(xs[i]) && p(xs[j]) {
      var i, j :| 0 <= i < j < |xs| && p(xs[i]) && p(xs[j]);
      PairSurvivesFilter(xs, p, i, j);
    }
  }

  lemma {:induction false} PairSurvivesFilter<T>(xs: seq<T>, p: T -> bool, i: nat, j: nat)
    requires i < j < |xs| && p(xs[i]) && p(xs[j])
    ensures |Filter(xs, p)| >= 2
  {
    var tail := xs[1..];
    if i == 0 {
      assert tail[j - 1] in Filter(tail, p);
    } else {
      PairSurvivesFilter(tail, p, i - 1, j - 1);
    }
  }

  lemma {:induction false} FilterKeepsPair<T>(xs: seq<T>, p: T -> bool)
    requires |Filter(xs, p)| >= 2
    ensures exists i, j :: 0 <= i < j < |xs| && p(xs[i]) && p(xs[j])
  {
    var tail := xs[1..];
    if p(xs[0]) {
      var y := Filter(tail, p)[0];
      var k :| 0 <= k < |tail| && tail[k] == y;
      assert p(xs[0]) && p(xs[k + 1]);
    } else {
      FilterKeepsPair(tail, p);
      var i, j :| 0 <= i < j < |tail| && p(tail[i]) && p(tail[j]);
      assert p(xs[i + 1]) && p(xs[j + 1]);
    }
  }

  /** When exactly one position satisfies the predicate, the filter keeps just that element. */
  lemma FilterSingle<T>(xs: seq<T>, p: T -> bool, k: nat)
    requires k < |xs| && p(xs[k])
    requires forall j :: 0 <= j < |xs| && j != k ==> !p(xs[j])
    ensures Filter(xs, p) == [xs[k]]
  {
    var r := Filter(xs, p);
    FilterAtLeastTwo(xs, p);
    assert xs[k] in r;
    assert |r| == 1;
    var i :| 0 <= i < |xs| && xs[i] == r[0];
    assert i == k;
  }

  /** The first element kept by the filter is the first element of `xs` that satisfies the predicate. */
  lemma {:induction false} FilterHead<T>(xs: seq<T>, p: T -> bool)
    requires Filter(xs, p) != []
    ensures exists i :: 0 <= i < |xs| && Filter(xs, p)[0] == xs[i] && p(xs[i]) &&
                        forall j :: 0 <= j < i ==> !p(xs[j])
  {
    if !p(xs[0]) {
      FilterHead(xs[1..], p);
      var i :| 0 <= i < |xs[1..]| && Filter(xs[1..], p)[0] == xs[1..][i] && p(xs[1..][i]) &&
               forall j :: 0 <= j < i ==> !p(xs[1..][j]);
      assert forall j :: 0 < j < i + 1 ==> xs[j] == xs[1..][j - 1];
    } else {
      assert Filter(xs, p)[0] == xs[0];
    }
  }

  /**
   * A filter whose predicate may fail: it succeeds when the predicate succeeds on every element,
   * and otherwise fails with the failure of the first element on which the predicate fails.
   */
  function TryFilter<T, E>(xs: seq<T>, p: T -> Result<bool, E>): (r: Result<seq<T>, E>)
    ensures r.Success? <==> forall i :: 0 <= i < |xs| ==> p(xs[i]).Success?
    ensures r.Failure? ==>
            exists i :: 0 <= i < |xs| && p(xs[i]) == Failure(r.error) &&
                        forall j :: 0 <= j < i ==> p(xs[j]).Success?
    ensures r.Success? ==>
            forall i :: 0 <= i < |r.value| ==> r.value[i] in xs && p(r.value[i]) == Success(true)
    ensures r.Success? ==>
            forall i :: 0 <= i < |xs| && p(xs[i]) == Success(true) ==> xs[i] in r.value
  {
    if |xs| == 0 then Success([])
    else
      match p(xs[0])
      case Failure(e) => Failure(e)
      case Success(keep) =>
        match TryFilter(xs[1..], p)
        case Failure(e) => Failure(e)
        case Success(rest) => Success(if keep then [xs[0]] + rest else rest)
  }

  /** When the predicate cannot fail on `xs`, TryFilter is the filter by the predicate's values. */
  lemma {:induction false} TryFilterIsFilter<T, E>(xs: seq<T>, p: T -> Result<bool, E>, q: T -> bool)
    requires forall i :: 0 <= i < |xs| ==> p(xs[i]) == Success(q(xs[i]))
    ensures TryFilter(xs, p) == Success(Filter(xs, q))
  {
    if |xs| > 0 {
      TryFilterIsFilter(xs[1..], p, q);
    }
  }

  /** On success, TryFilter keeps something exactly when the predicate accepts some element. */
  lemma TryFilterNonEmpty<T, E>(xs: seq<T>, p: T -> Result<bool, E>)
    requires TryFilter(xs, p).Success?
    ensures |TryFilter(xs, p).value| != 0 <==> exists i :: 0 <= i < |xs| && p(xs[i]) == Success(true)
  {
    var kept := TryFilter(xs, p).value;
    if |kept| != 0 {
      var i :| 0 <= i < |xs| && xs[i] == kept[0];
    }
  }
}
