/** Order-preserving selections over sequences: the `if ...: out.append(x)` loops
    and list comprehensions with a filter clause used throughout the bot. */
module Seqs {

  /** The elements of `xs` whose flag in `keep` is set, in their original order. */
  function Select<T>(xs: seq<T>, keep: seq<bool>): (r: seq<T>)
    requires |xs| == |keep|
    ensures |r| <= |xs|
    decreases |xs|
  {
    if |xs| == 0 then []
    else
      var n := |xs| - 1;
      Select(xs[..n], keep[..n]) + (if keep[n] then [xs[n]] else [])
  }

  /** An element is selected exactly when some position holding it is flagged. */
  lemma {:induction false} SelectMember<T>(xs: seq<T>, keep: seq<bool>, x: T)
    requires |xs| == |keep|
    ensures x in Select(xs, keep) <==> exists i :: 0 <= i < |xs| && keep[i] && xs[i] == x
    decreases |xs|
  {
    if |xs| > 0 {
      var n := |xs| - 1;
      SelectMember(xs[..n], keep[..n], x);
      if x in Select(xs[..n], keep[..n]) {
        var i :| 0 <= i < n && keep[..n][i] && xs[..n][i] == x;
        assert keep[i] && xs[i] == x;
      }
      if exists i :: 0 <= i < |xs| && keep[i] && xs[i] == x {
        var i :| 0 <= i < |xs| && keep[i] && xs[i] == x;
        if i < n {
          assert keep[..n][i] && xs[..n][i] == x;
        }
      }
    }
  }

  /** Nothing is selected exactly when no flag is set. */
  lemma {:induction false} SelectEmpty<T>(xs: seq<T>, keep: seq<bool>)
    requires |xs| == |keep|
    ensures Select(xs, keep) == [] <==> forall i :: 0 <= i < |keep| ==> !keep[i]
    decreases |xs|
  {
    if |xs| > 0 {
      var n := |xs| - 1;
      SelectEmpty(xs[..n], keep[..n]);
      if forall i :: 0 <= i < |keep| ==> !keep[i] {
        assert forall i :: 0 <= i < n ==> !keep[..n][i];
      } else if Select(xs[..n], keep[..n]) == [] && !keep[n] {
        var i :| 0 <= i < |keep| && keep[i];
        assert keep[..n][i];
      }
    }
  }

  /** Selecting from a prefix extended by one element extends the selection by at most
      that element: the step of an appending loop. */
  lemma SelectSnoc<T>(xs: seq<T>, keep: seq<bool>, x: T, k: bool)
    requires |xs| == |keep|
    ensures Select(xs + [x], keep + [k]) == Select(xs, keep) + (if k then [x] else [])
  {
    assert (xs + [x])[..|xs|] == xs;
    assert (keep + [k])[..|keep|] == keep;
  }

  /** A prefix one longer is the prefix extended by the next element. */
  lemma TakeSnoc<T>(xs: seq<T>, i: nat)
    requires i < |xs|
    ensures xs[..i + 1] == xs[..i] + [xs[i]]
  {
  }

  /** Selecting from a prefix one longer extends the selection by the next element when
      its flag is set: the step of a loop that appends the flagged elements. */
  lemma SelectStep<T>(xs: seq<T>, keep: seq<bool>, i: nat)
    requires |xs| == |keep| && i < |xs|
    ensures Select(xs[..i + 1], keep[..i + 1]) == Select(xs[..i], keep[..i]) + (if keep[i] then [xs[i]] else [])
  {
    TakeSnoc(xs, i);
    TakeSnoc(keep, i);
    SelectSnoc(xs[..i], keep[..i], xs[i], keep[i]);
  }

  /** The first `n` values of an input indexed by position. */
  function Prefix<T>(f: nat -> T, n: nat): (r: seq<T>)
    ensures |r| == n && forall i :: 0 <= i < n ==> r[i] == f(i)
  {
    seq(n, i requires 0 <= i < n => f(i))
  }

  lemma AppendAssoc<T>(a: seq<T>, b: seq<T>, c: seq<T>)
    ensures a + b + c == a + (b + c)
  {
  }

  lemma TakeAll<T>(xs: seq<T>)
    ensures xs[..|xs|] == xs
  {
  }

  /** The elements of `xs` that satisfy `p`, in their original order. */
  function Filter<T>(xs: seq<T>, p: T -> bool): (r: seq<T>)
    ensures |r| <= |xs|
    decreases |xs|
  {
    if |xs| == 0 then []
    else
      var n := |xs| - 1;
      Filter(xs[..n], p) + (if p(xs[n]) then [xs[n]] else [])
  }

  /** Filtering keeps exactly the elements that satisfy the predicate. */
  lemma {:induction false} FilterMember<T>(xs: seq<T>, p: T -> bool, x: T)
    ensures x in Filter(xs, p) <==> x in xs && p(x)
    decreases |xs|
  {
    if |xs| > 0 {
      var n := |xs| - 1;
      FilterMember(xs[..n], p, x);
      assert xs == xs[..n] + [xs[n]];
    }
  }

  /** Filtering distributes over concatenation: the relative order of kept elements is
      the order of the input. */
  lemma {:induction false} FilterAppend<T>(a: seq<T>, b: seq<T>, p: T -> bool)
    ensures Filter(a + b, p) == Filter(a, p) + Filter(b, p)
    decreases |b|
  {
    if |b| == 0 {
      assert a + b == a;
    } else {
      var n := |b| - 1;
      FilterAppend(a, b[..n], p);
      assert (a + b)[..|a + b| - 1] == a + b[..n];
    }
  }

  /** A filter whose predicate holds everywhere keeps the whole sequence. */
  lemma {:induction false} FilterAll<T>(xs: seq<T>, p: T -> bool)
    requires forall i :: 0 <= i < |xs| ==> p(xs[i])
    ensures Filter(xs, p) == xs
    decreases |xs|
  {
    if |xs| > 0 {
      var n := |xs| - 1;
      FilterAll(xs[..n], p);
      assert p(xs[n]);
      assert xs[..n] + [xs[n]] == xs;
    }
  }

  /** A filter whose predicate fails everywhere keeps nothing. */
  lemma {:induction false} FilterNone<T>(xs: seq<T>, p: T -> bool)
    requires forall i :: 0 <= i < |xs| ==> !p(xs[i])
    ensures Filter(xs, p) == []
    decreases |xs|
  {
    if |xs| > 0 {
      FilterNone(xs[..|xs| - 1], p);
    }
  }

  /** Filtering twice by the same predicate is the same as filtering once. */
  lemma FilterIdempotent<T>(xs: seq<T>, p: T -> bool)
    ensures Filter(Filter(xs, p), p) == Filter(xs, p)
  {
    var ys := Filter(xs, p);
    forall i | 0 <= i < |ys| ensures p(ys[i]) {
      FilterMember(xs, p, ys[i]);
    }
    FilterAll(Filter(xs, p), p);
  }

  /** The step of a filtering loop. */
  lemma FilterSnoc<T>(xs: seq<T>, x: T, p: T -> bool)
    ensures Filter(xs + [x], p) == Filter(xs, p) + (if p(x) then [x] else [])
  {
    assert (xs + [x])[..|xs|] == xs;
  }
}
