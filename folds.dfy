/**
 * Dictionaries filled in a loop: `d[k] = v` executed for a sequence of
 * key/value pairs, in order.  A later pair for the same key overwrites an
 * earlier one.
 */
module Folds {

  /** The dictionary left by assigning every pair of `ps`, first to last, into an empty dict. */
  function FoldPairs<K(==), V>(ps: seq<(K, V)>): (m: map<K, V>)
    ensures m.Keys == set i | 0 <= i < |ps| :: ps[i].0
  {
    if ps == [] then map[]
    else
      var init := ps[..|ps| - 1];
      var last := ps[|ps| - 1];
      assert (set i | 0 <= i < |ps| :: ps[i].0) == (set i | 0 <= i < |init| :: init[i].0) + {last.0} by {
        forall i | 0 <= i < |init| ensures init[i] == ps[i] {}
      }
      FoldPairs(init)[last.0 := last.1]
  }

  /** One more assignment at the end updates one entry. */
  lemma FoldPairsSnoc<K, V>(ps: seq<(K, V)>, k: K, v: V)
    ensures FoldPairs(ps + [(k, v)]) == FoldPairs(ps)[k := v]
  {
    assert (ps + [(k, v)])[..|ps|] == ps;
  }

  /** The entry for a key is the value of the last pair that assigns it. */
  lemma {:induction false} LastWriteWins<K, V>(ps: seq<(K, V)>, i: nat)
    requires i < |ps|
    requires forall j :: i < j < |ps| ==> ps[j].0 != ps[i].0
    ensures ps[i].0 in FoldPairs(ps) && FoldPairs(ps)[ps[i].0] == ps[i].1
  {
    var n := |ps| - 1;
    if i < n {
      var init := ps[..n];
      assert init[i] == ps[i];
      LastWriteWins(init, i);
    }
  }

  /** Every value in the dictionary is the value of some pair. */
  lemma {:induction false} FoldPairsValues<K, V>(ps: seq<(K, V)>, k: K)
    requires k in FoldPairs(ps)
    ensures exists i :: 0 <= i < |ps| && ps[i] == (k, FoldPairs(ps)[k])
  {
    var n := |ps| - 1;
    var init := ps[..n];
    if ps[n].0 != k {
      FoldPairsValues(init, k);
      var i :| 0 <= i < |init| && init[i] == (k, FoldPairs(init)[k]);
      assert ps[i] == init[i];
    } else {
      assert ps[n] == (k, FoldPairs(ps)[k]);
    }
  }

  /**
   * The assignments `d[key(x)] = val(x)` a loop over `xs` performs for the
   * elements that pass `keep`, in order.
   */
  function KeptPairs<T, K, V>(xs: seq<T>, keep: T -> bool, key: T -> K, val: T -> V): (ps: seq<(K, V)>)
    ensures |ps| <= |xs|
  {
    if xs == [] then []
    else
      var x := xs[|xs| - 1];
      KeptPairs(xs[..|xs| - 1], keep, key, val) + (if keep(x) then [(key(x), val(x))] else [])
  }

  /** One more element: the dictionary gains or overwrites the entry of a kept element. */
  lemma KeptFoldNext<T, K, V>(xs: seq<T>, i: nat, keep: T -> bool, key: T -> K, val: T -> V)
    requires i < |xs|
    ensures FoldPairs(KeptPairs(xs[..i + 1], keep, key, val))
      == if keep(xs[i]) then FoldPairs(KeptPairs(xs[..i], keep, key, val))[key(xs[i]) := val(xs[i])]
         else FoldPairs(KeptPairs(xs[..i], keep, key, val))
  {
    var before := KeptPairs(xs[..i], keep, key, val);
    assert xs[..i + 1][..i] == xs[..i];
    if keep(xs[i]) {
      FoldPairsSnoc(before, key(xs[i]), val(xs[i]));
    } else {
      assert KeptPairs(xs[..i + 1], keep, key, val) == before + [];
      assert before + [] == before;
    }
  }

  /** The dictionary's keys are exactly the keys of the kept elements. */
  lemma {:induction false} KeptKeys<T, K, V>(xs: seq<T>, keep: T -> bool, key: T -> K, val: T -> V, k: K)
    ensures k in FoldPairs(KeptPairs(xs, keep, key, val))
        <==> exists i :: 0 <= i < |xs| && keep(xs[i]) && key(xs[i]) == k
  {
    if xs != [] {
      var n := |xs| - 1;
      var init := xs[..n];
      var before := KeptPairs(init, keep, key, val);
      KeptKeys(init, keep, key, val, k);
      KeptFoldNext(xs, n, keep, key, val);
      assert xs[..n + 1] == xs;
      if exists i :: 0 <= i < |init| && keep(init[i]) && key(init[i]) == k {
        var i :| 0 <= i < |init| && keep(init[i]) && key(init[i]) == k;
        assert xs[i] == init[i];
      }
      if exists i :: 0 <= i < |xs| && keep(xs[i]) && key(xs[i]) == k {
        var i :| 0 <= i < |xs| && keep(xs[i]) && key(xs[i]) == k;
        if i < n {
          assert init[i] == xs[i];
        }
      }
    }
  }

  /** The value stored for a key is the value of the last kept element with that key. */
  lemma {:induction false} KeptLastWins<T, K, V>(xs: seq<T>, keep: T -> bool, key: T -> K, val: T -> V, i: nat)
    requires i < |xs| && keep(xs[i])
    requires forall j :: i < j < |xs| && keep(xs[j]) ==> key(xs[j]) != key(xs[i])
    ensures key(xs[i]) in FoldPairs(KeptPairs(xs, keep, key, val))
    ensures FoldPairs(KeptPairs(xs, keep, key, val))[key(xs[i])] == val(xs[i])
  {
    var n := |xs| - 1;
    KeptFoldNext(xs, n, keep, key, val);
    assert xs[..n + 1] == xs;
    if i < n {
      var init := xs[..n];
      assert init[i] == xs[i];
      KeptLastWins(init, keep, key, val, i);
    }
  }

  /** Every key of `keys` paired with the same value. */
  function PairsWith<K, V>(keys: seq<K>, v: V): (ps: seq<(K, V)>)
    ensures |ps| == |keys| && forall i :: 0 <= i < |keys| ==> ps[i] == (keys[i], v)
  {
    if keys == [] then [] else PairsWith(keys[..|keys| - 1], v) + [(keys[|keys| - 1], v)]
  }

  /** After the assignments of `PairsWith(keys, v)`, each of the keys holds `v`. */
  lemma {:induction false} PairsWithSets<K, V>(before: seq<(K, V)>, keys: seq<K>, v: V, k: K)
    requires k in keys
    ensures k in FoldPairs(before + PairsWith(keys, v))
    ensures FoldPairs(before + PairsWith(keys, v))[k] == v
  {
    var m := |keys| - 1;
    assert before + PairsWith(keys, v) == before + PairsWith(keys[..m], v) + [(keys[m], v)];
    FoldPairsSnoc(before + PairsWith(keys[..m], v), keys[m], v);
    if keys[m] != k {
      assert k in keys[..m];
      PairsWithSets(before, keys[..m], v, k);
    }
  }

  /** Assignments to other keys leave an entry as it was. */
  lemma {:induction false} PairsWithUntouched<K, V>(before: seq<(K, V)>, keys: seq<K>, v: V, k: K)
    requires k !in keys && k in FoldPairs(before)
    ensures k in FoldPairs(before + PairsWith(keys, v))
    ensures FoldPairs(before + PairsWith(keys, v))[k] == FoldPairs(before)[k]
  {
    if keys != [] {
      var m := |keys| - 1;
      PairsWithUntouched(before, keys[..m], v, k);
      assert before + PairsWith(keys, v) == before + PairsWith(keys[..m], v) + [(keys[m], v)];
      FoldPairsSnoc(before + PairsWith(keys[..m], v), keys[m], v);
    } else {
      assert before + PairsWith(keys, v) == before;
    }
  }

  /** Assignments that only touch keys outside the dictionary add exactly those keys. */
  lemma PairsWithKeys<K, V>(before: seq<(K, V)>, keys: seq<K>, v: V, k: K)
    ensures k in FoldPairs(before + PairsWith(keys, v)) <==> k in FoldPairs(before) || k in keys
  {
    var ps := before + PairsWith(keys, v);
    if k in FoldPairs(ps) {
      var i :| 0 <= i < |ps| && ps[i].0 == k;
      if i < |before| {
        assert before[i] == ps[i];
      } else {
        assert keys[i - |before|] == k;
      }
    }
    if k in FoldPairs(before) {
      var i :| 0 <= i < |before| && before[i].0 == k;
      assert ps[i] == before[i];
    }
    if k in keys {
      PairsWithSets(before, keys, v, k);
    }
  }

  /**
   * The assignments of a nested loop: for each element `x` of `xs`, in order,
   * `d[key] = val(x)` for every key of `keys(ctx, x)`, in order.
   */
  function GroupPairs<C, T, K, V>(ctx: C, xs: seq<T>, keys: (C, T) -> seq<K>, val: T -> V): seq<(K, V)> {
    if xs == [] then []
    else
      var x := xs[|xs| - 1];
      GroupPairs(ctx, xs[..|xs| - 1], keys, val) + PairsWith(keys(ctx, x), val(x))
  }

  /** One more element of the outer loop. */
  lemma GroupPairsNext<C, T, K, V>(ctx: C, xs: seq<T>, keys: (C, T) -> seq<K>, val: T -> V, i: nat)
    requires i < |xs|
    ensures GroupPairs(ctx, xs[..i + 1], keys, val) == GroupPairs(ctx, xs[..i], keys, val) + PairsWith(keys(ctx, xs[i]), val(xs[i]))
  {
    assert xs[..i + 1][..i] == xs[..i];
  }

  /** One more key of the inner loop. */
  lemma PairsWithNext<K, V>(before: seq<(K, V)>, keys: seq<K>, v: V, j: nat)
    requires j < |keys|
    ensures FoldPairs(before + PairsWith(keys[..j + 1], v)) == FoldPairs(before + PairsWith(keys[..j], v))[keys[j] := v]
  {
    assert keys[..j + 1][..j] == keys[..j];
    assert before + PairsWith(keys[..j + 1], v) == before + PairsWith(keys[..j], v) + [(keys[j], v)];
    FoldPairsSnoc(before + PairsWith(keys[..j], v), keys[j], v);
  }

  /** The keys of the dictionary are the keys of all elements. */
  lemma {:induction false} GroupKeys<C, T, K, V>(ctx: C, xs: seq<T>, keys: (C, T) -> seq<K>, val: T -> V, k: K)
    ensures k in FoldPairs(GroupPairs(ctx, xs, keys, val)) <==> exists i :: 0 <= i < |xs| && k in keys(ctx, xs[i])
  {
    if xs != [] {
      var n := |xs| - 1;
      var init := xs[..n];
      GroupKeys(ctx, init, keys, val, k);
      PairsWithKeys(GroupPairs(ctx, init, keys, val), keys(ctx, xs[n]), val(xs[n]), k);
      if exists i :: 0 <= i < |init| && k in keys(ctx, init[i]) {
        var i :| 0 <= i < |init| && k in keys(ctx, init[i]);
        assert xs[i] == init[i];
      }
      if exists i :: 0 <= i < |xs| && k in keys(ctx, xs[i]) {
        var i :| 0 <= i < |xs| && k in keys(ctx, xs[i]);
        if i < n {
          assert init[i] == xs[i];
        }
      }
    }
  }

  /** A key of an element that no later element has holds that element's value. */
  lemma {:induction false} GroupLastWins<C, T, K, V>(ctx: C, xs: seq<T>, keys: (C, T) -> seq<K>, val: T -> V, i: nat, k: K)
    requires i < |xs| && k in keys(ctx, xs[i])
    requires forall j :: i < j < |xs| ==> k !in keys(ctx, xs[j])
    ensures k in FoldPairs(GroupPairs(ctx, xs, keys, val))
    ensures FoldPairs(GroupPairs(ctx, xs, keys, val))[k] == val(xs[i])
  {
    var n := |xs| - 1;
    var init := xs[..n];
    var before := GroupPairs(ctx, init, keys, val);
    if i == n {
      PairsWithSets(before, keys(ctx, xs[n]), val(xs[n]), k);
    } else {
      assert init[i] == xs[i];
      GroupLastWins(ctx, init, keys, val, i, k);
      PairsWithUntouched(before, keys(ctx, xs[n]), val(xs[n]), k);
    }
  }

  /** Every entry holds the value of an element that has its key. */
  lemma {:induction false} GroupValueFrom<C, T, K, V>(ctx: C, xs: seq<T>, keys: (C, T) -> seq<K>, val: T -> V, k: K)
    requires k in FoldPairs(GroupPairs(ctx, xs, keys, val))
    ensures exists i :: 0 <= i < |xs| && k in keys(ctx, xs[i]) && FoldPairs(GroupPairs(ctx, xs, keys, val))[k] == val(xs[i])
  {
    var n := |xs| - 1;
    var init := xs[..n];
    var before := GroupPairs(ctx, init, keys, val);
    if k in keys(ctx, xs[n]) {
      PairsWithSets(before, keys(ctx, xs[n]), val(xs[n]), k);
    } else {
      PairsWithKeys(before, keys(ctx, xs[n]), val(xs[n]), k);
      PairsWithUntouched(before, keys(ctx, xs[n]), val(xs[n]), k);
      GroupValueFrom(ctx, init, keys, val, k);
      var i :| 0 <= i < |init| && k in keys(ctx, init[i]) && FoldPairs(before)[k] == val(init[i]);
      assert xs[i] == init[i];
    }
  }
}
