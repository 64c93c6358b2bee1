/**
 * The dictionary a Python loop builds by assigning `d[key] = value` for every item that
 * yields a pair: a later pair with the same key overwrites the earlier one.
 */
module Dicts {
  import opened Wrappers

  /** The dict after the loop has visited every item of `xs`, in order. */
  function Collect<T, K(==), V>(xs: seq<T>, f: T -> Option<(K, V)>): map<K, V>
  {
    if |xs| == 0 then map[]
    else
      var m := Collect(xs[..|xs| - 1], f);
      match f(xs[|xs| - 1])
      case None => m
      case Some(kv) => m[kv.0 := kv.1]
  }

  /** Visiting one more item stores its pair, if it yields one, over what was there. */
  lemma CollectSnoc<T, K, V>(xs: seq<T>, x: T, f: T -> Option<(K, V)>)
    ensures Collect(xs + [x], f) == if f(x).Some? then Collect(xs, f)[f(x).value.0 := f(x).value.1] else Collect(xs, f)
  {
    assert (xs + [x])[..|xs|] == xs;
  }

  /** The loop step at item `i`, stated on prefixes of `xs`. */
  lemma CollectStep<T, K, V>(xs: seq<T>, i: nat, f: T -> Option<(K, V)>)
    requires i < |xs|
    ensures Collect(xs[..i + 1], f) ==
      if f(xs[i]).Some? then Collect(xs[..i], f)[f(xs[i]).value.0 := f(xs[i]).value.1] else Collect(xs[..i], f)
  {
    assert xs[..i + 1][..i] == xs[..i];
  }

  /** Item `x` is stored under key `k`. */
  predicate Yields<T, K(==), V>(f: T -> Option<(K, V)>, x: T, k: K)
  {
    f(x).Some? && f(x).value.0 == k
  }

  /** Item `i` is the last one stored under `k`. */
  predicate LastYield<T, K(==), V>(xs: seq<T>, f: T -> Option<(K, V)>, i: int, k: K)
  {
    0 <= i < |xs| && Yields(f, xs[i], k) && forall j :: i < j < |xs| ==> !Yields(f, xs[j], k)
  }

  /** A key is present exactly when some item yields it, and its value is the last such item's. */
  lemma {:induction false} CollectLast<T, K, V>(xs: seq<T>, f: T -> Option<(K, V)>, k: K)
    ensures k in Collect(xs, f) <==> exists i :: 0 <= i < |xs| && Yields(f, xs[i], k)
    ensures k in Collect(xs, f) ==>
      exists i :: LastYield(xs, f, i, k) && Collect(xs, f)[k] == f(xs[i]).value.1
  {
    if |xs| > 0 {
      var n := |xs| - 1;
      var init := xs[..n];
      CollectLast(init, f, k);
      assert forall j :: 0 <= j < n ==> init[j] == xs[j];
      if Yields(f, xs[n], k) {
        assert LastYield(xs, f, n, k);
      } else if k in Collect(init, f) {
        var i :| LastYield(init, f, i, k) && Collect(init, f)[k] == f(init[i]).value.1;
        assert LastYield(xs, f, i, k);
      }
    }
  }

  /** The value under a key is the one from the last item that yields it. */
  lemma CollectLastWins<T, K, V>(xs: seq<T>, f: T -> Option<(K, V)>, i: int, k: K)
    requires LastYield(xs, f, i, k)
    ensures k in Collect(xs, f) && Collect(xs, f)[k] == f(xs[i]).value.1
  {
    CollectLast(xs, f, k);
    var i' :| LastYield(xs, f, i', k) && Collect(xs, f)[k] == f(xs[i']).value.1;
    assert i' == i;
  }

  /** The dict stays empty exactly when no item yields a pair. */
  lemma {:induction false} CollectEmpty<T, K, V>(xs: seq<T>, f: T -> Option<(K, V)>)
    ensures Collect(xs, f) == map[] <==> forall i :: 0 <= i < |xs| ==> f(xs[i]).None?
  {
    if |xs| > 0 {
      var n := |xs| - 1;
      CollectEmpty(xs[..n], f);
      assert forall i :: 0 <= i < n ==> xs[..n][i] == xs[i];
      if f(xs[n]).Some? {
        assert f(xs[n]).value.0 in Collect(xs, f);
      }
    }
  }
}
