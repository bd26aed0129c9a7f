/** Iterator `filter_map` over sequences, the shape both the ALN parser and the schedule ranking share. */
module Seqs {
  import opened Results

  /** Keeps the `Some` results of `f`, in order: Rust's `iter().filter_map(f).collect()`. */
  function FilterMap<T, U>(xs: seq<T>, f: T -> Option<U>): (r: seq<U>)
    ensures |r| <= |xs|
    ensures forall y :: y in r ==> exists i :: 0 <= i < |xs| && f(xs[i]) == Some(y)
    decreases |xs|
  {
    if |xs| == 0 then []
    else
      var rest := FilterMap(xs[1..], f);
      assert forall y :: y in rest ==> exists i :: 0 <= i < |xs| && f(xs[i]) == Some(y) by {
        forall y | y in rest
          ensures exists i :: 0 <= i < |xs| && f(xs[i]) == Some(y)
        {
          var i :| 0 <= i < |xs[1..]| && f(xs[1..][i]) == Some(y);
          assert f(xs[i + 1]) == Some(y);
        }
      }
      match f(xs[0])
      case None => rest
      case Some(y) => [y] + rest
  }

  /** Order is kept: filtering a concatenation filters each part. */
  lemma {:induction false} FilterMapAppend<T, U>(a: seq<T>, b: seq<T>, f: T -> Option<U>)
    ensures FilterMap(a + b, f) == FilterMap(a, f) + FilterMap(b, f)
    decreases |a|
  {
    if |a| == 0 {
      assert a + b == b;
    } else {
      assert (a + b)[1..] == a[1..] + b;
      FilterMapAppend(a[1..], b, f);
    }
  }

  lemma FilterMapSingle<T, U>(x: T, f: T -> Option<U>)
    ensures FilterMap([x], f) == match f(x) case Some(y) => [y] case None => []
  {
  }

  /** When every element yields a value, the result is exactly those values. */
  lemma {:induction false} FilterMapAllSome<T, U>(xs: seq<T>, ys: seq<U>, f: T -> Option<U>)
    requires |xs| == |ys|
    requires forall k :: 0 <= k < |xs| ==> f(xs[k]) == Some(ys[k])
    ensures FilterMap(xs, f) == ys
    decreases |xs|
  {
    if |xs| > 0 {
      assert f(xs[0]) == Some(ys[0]);
      FilterMapAllSome(xs[1..], ys[1..], f);
      assert ys == [ys[0]] + ys[1..];
    }
  }
}
