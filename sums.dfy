/** Sums of per-key weights over a sequence of keys: the shape of every accumulation loop
    over a JavaScript `Map` in the clustering engine (`for (const [k, v] of m) acc += ...`). */
module Sums {
  import opened Seqs

  /** The weight of `k`, zero for a key the map does not hold. */
  function Weight(w: map<string, nat>, k: string): nat {
    if k in w then w[k] else 0
  }

  /** The sum of the weights of `ks`, in order. */
  function Total(ks: seq<string>, w: map<string, nat>): nat {
    if ks == [] then 0 else Weight(w, ks[0]) + Total(ks[1..], w)
  }

  lemma {:induction false} TotalAppend(a: seq<string>, b: seq<string>, w: map<string, nat>)
    ensures Total(a + b, w) == Total(a, w) + Total(b, w)
  {
    if a == [] {
      assert a + b == b;
    } else {
      assert (a + b)[0] == a[0];
      assert (a + b)[1..] == a[1..] + b;
      TotalAppend(a[1..], b, w);
    }
  }

  /** The last key's weight comes last. */
  lemma TotalSnoc(a: seq<string>, k: string, w: map<string, nat>)
    ensures Total(a + [k], w) == Total(a, w) + Weight(w, k)
  {
    TotalAppend(a, [k], w);
  }

  /** Changing the weight of a key that is not summed changes nothing. */
  lemma {:induction false} TotalUpdateOutside(ks: seq<string>, w: map<string, nat>, k: string, v: nat)
    requires k !in ks
    ensures Total(ks, w[k := v]) == Total(ks, w)
  {
    if ks != [] {
      TotalUpdateOutside(ks[1..], w, k, v);
    }
  }

  /** Changing the weight of a key summed exactly once moves the total by the difference. */
  lemma {:induction false} TotalUpdateInside(ks: seq<string>, w: map<string, nat>, k: string, v: nat)
    requires Distinct(ks) && k in ks
    ensures Total(ks, w[k := v]) + Weight(w, k) == Total(ks, w) + v
  {
    if ks[0] == k {
      assert k !in ks[1..];
      TotalUpdateOutside(ks[1..], w, k, v);
    } else {
      TotalUpdateInside(ks[1..], w, k, v);
    }
  }

  /** Keys without weight contribute nothing. */
  lemma {:induction false} TotalZero(ks: seq<string>, w: map<string, nat>)
    requires forall i | 0 <= i < |ks| :: ks[i] !in w
    ensures Total(ks, w) == 0
  {
    if ks != [] {
      TotalZero(ks[1..], w);
    }
  }

  /** A non-empty sequence of keys that all weigh at least one has a positive total. */
  lemma TotalPositive(ks: seq<string>, w: map<string, nat>)
    requires ks != []
    requires forall i | 0 <= i < |ks| :: Weight(w, ks[i]) >= 1
    ensures Total(ks, w) >= 1
  {
  }

  /** A summed key contributes its whole weight. */
  lemma {:induction false} TotalAtLeast(ks: seq<string>, w: map<string, nat>, k: string)
    requires k in ks
    ensures Total(ks, w) >= Weight(w, k)
  {
    if ks[0] != k {
      TotalAtLeast(ks[1..], w, k);
    }
  }

  /** The keys of `ks` that `w` holds, in order. */
  function Only(ks: seq<string>, w: map<string, nat>): (r: seq<string>)
    ensures forall k :: k in r <==> k in ks && k in w
    ensures Distinct(ks) ==> Distinct(r)
  {
    if ks == [] then []
    else if ks[0] in w then [ks[0]] + Only(ks[1..], w)
    else Only(ks[1..], w)
  }

  lemma {:induction false} TotalOnly(ks: seq<string>, w: map<string, nat>)
    ensures Total(ks, w) == Total(Only(ks, w), w)
  {
    if ks != [] {
      TotalOnly(ks[1..], w);
      if ks[0] in w {
        assert Only(ks, w)[1..] == Only(ks[1..], w);
      }
    }
  }

  /** Removing the key at index `j` of a distinct sequence removes exactly that key and its
      weight. */
  lemma RemoveAt(ys: seq<string>, j: nat, w: map<string, nat>)
    requires Distinct(ys) && j < |ys|
    ensures Distinct(ys[..j] + ys[j + 1..])
    ensures forall k :: k in ys[..j] + ys[j + 1..] <==> k in ys && k != ys[j]
    ensures Total(ys, w) == Weight(w, ys[j]) + Total(ys[..j] + ys[j + 1..], w)
  {
    RemoveAtMembers(ys, j);
    RemoveAtTotal(ys, j, w);
  }

  lemma RemoveAtMembers(ys: seq<string>, j: nat)
    requires Distinct(ys) && j < |ys|
    ensures Distinct(ys[..j] + ys[j + 1..])
    ensures forall k :: k in ys[..j] + ys[j + 1..] <==> k in ys && k != ys[j]
  {
    var rest := ys[..j] + ys[j + 1..];
    assert |rest| == |ys| - 1;
    assert forall m | 0 <= m < |rest| :: rest[m] == ys[if m < j then m else m + 1];
    forall k | k in ys && k != ys[j] ensures k in rest {
      var m :| 0 <= m < |ys| && ys[m] == k;
      assert rest[if m < j then m else m - 1] == k;
    }
  }

  lemma RemoveAtTotal(ys: seq<string>, j: nat, w: map<string, nat>)
    requires j < |ys|
    ensures Total(ys, w) == Weight(w, ys[j]) + Total(ys[..j] + ys[j + 1..], w)
  {
    assert ys == ys[..j] + ([ys[j]] + ys[j + 1..]);
    TotalAppend(ys[..j], [ys[j]] + ys[j + 1..], w);
    TotalAppend(ys[..j], ys[j + 1..], w);
  }

  /** Summing over some of the keys gives no more than summing over all of them. */
  lemma {:induction false} TotalSubset(xs: seq<string>, ys: seq<string>, w: map<string, nat>)
    requires Distinct(xs) && Distinct(ys)
    requires forall k | k in xs :: k in ys
    ensures Total(xs, w) <= Total(ys, w)
    decreases |xs|
  {
    if xs != [] {
      var x := xs[0];
      assert x in xs;
      var j :| 0 <= j < |ys| && ys[j] == x;
      RemoveAt(ys, j, w);
      RemoveAt(xs, 0, w);
      assert xs[..0] + xs[1..] == xs[1..];
      forall k | k in xs[1..] ensures k in ys[..j] + ys[j + 1..] {
        assert k in ys && k != x;
      }
      TotalSubset(xs[1..], ys[..j] + ys[j + 1..], w);
    }
  }

  /** The total does not depend on the order of distinct keys. */
  lemma {:induction false} TotalPermutation(xs: seq<string>, ys: seq<string>, w: map<string, nat>)
    requires Distinct(xs) && Distinct(ys)
    requires forall k :: k in xs <==> k in ys
    ensures Total(xs, w) == Total(ys, w)
    decreases |xs|
  {
    if xs == [] {
      assert forall i | 0 <= i < |ys| :: ys[i] in xs;
    } else {
      var x := xs[0];
      assert x in ys;
      var j :| 0 <= j < |ys| && ys[j] == x;
      RemoveAt(ys, j, w);
      RemoveAt(xs, 0, w);
      assert xs[..0] + xs[1..] == xs[1..];
      forall k ensures k in xs[1..] <==> k in ys[..j] + ys[j + 1..] {
        assert k in xs[1..] <==> k in xs && k != x;
      }
      TotalPermutation(xs[1..], ys[..j] + ys[j + 1..], w);
    }
  }
}
