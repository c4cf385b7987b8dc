/** Cosine similarity of two term-frequency maps (`cosine` in lib/cluster/issues.ts), in squared
    form: the similarity is `dot / (sqrt(a2) * sqrt(b2))` and never negative, so comparing
    similarities, or a similarity with a threshold `t >= 0`, gives the same answer as comparing
    their squares, or the square with `t * t`; the model therefore needs no square root. */
module Similarity {
  import opened Seqs
  import opened Sums
  import opened Tokens

  function Squares(m: map<string, nat>): map<string, nat> {
    map k | k in m :: m[k] * m[k]
  }

  function Products(x: map<string, nat>, y: map<string, nat>): map<string, nat> {
    map k | k in x && k in y :: x[k] * y[k]
  }

  /** `a2`: the sum of the squared counts. */
  function SumSq(a: TokenMap): nat {
    Total(a.keys, Squares(a.counts))
  }

  /** `dot`: over the keys of `a`, the product of the two counts wherever `b` has the key. */
  function Dot(a: TokenMap, b: TokenMap): nat {
    Total(a.keys, Products(a.counts, b.counts))
  }

  /** `dot / (sqrt(a2) * sqrt(b2))`, squared; zero when the denominator is zero. */
  function Quotient(dot: nat, a2: nat, b2: nat): (r: real)
    ensures r >= 0.0
    ensures dot * dot <= a2 * b2 ==> r <= 1.0
  {
    if a2 * b2 == 0 then 0.0 else (dot * dot) as real / (a2 * b2) as real
  }

  /** The square of `cosine(a, b)`. */
  function CosSq(a: TokenMap, b: TokenMap): real {
    Quotient(Dot(a, b), SumSq(a), SumSq(b))
  }

  lemma QuotientPositive(dot: nat, a2: nat, b2: nat)
    requires dot >= 1 && a2 >= 1 && b2 >= 1
    ensures Quotient(dot, a2, b2) > 0.0
  {
    var d := a2 * b2;
    assert d >= 1 by {
      assert a2 * b2 >= 1 * b2;
    }
    var n := dot * dot;
    assert n >= 1 by {
      assert dot * dot >= 1 * dot;
    }
  }

  lemma QuotientSelf(a2: nat)
    requires a2 >= 1
    ensures Quotient(a2, a2, a2) == 1.0
  {
    var d := a2 * a2;
    assert d >= 1 by {
      assert a2 * a2 >= 1 * a2;
    }
    assert d as real / d as real == 1.0;
  }

  /** The sum of squared counts of a map with a key is positive. */
  lemma SumSqPositive(a: TokenMap)
    requires a.Valid() && a.keys != []
    ensures SumSq(a) >= 1
  {
    assert forall i | 0 <= i < |a.keys| :: Weight(Squares(a.counts), a.keys[i]) >= 1 by {
      forall i | 0 <= i < |a.keys| ensures Weight(Squares(a.counts), a.keys[i]) >= 1 {
        var n := a.counts[a.keys[i]];
        assert n * n >= 1 by {
          assert n >= 1;
        }
      }
    }
    TotalPositive(a.keys, Squares(a.counts));
  }

  /** An empty map is similar to nothing: the denominator is zero. */
  lemma CosineEmpty(a: TokenMap, b: TokenMap)
    requires a.Valid() && b.Valid()
    requires a.counts == map[] || b.counts == map[]
    ensures CosSq(a, b) == 0.0
  {
    if a.keys != [] {
      assert a.keys[0] in a.counts;
    }
    if b.keys != [] {
      assert b.keys[0] in b.counts;
    }
  }

  /** Maps without a shared key have similarity zero. */
  lemma CosineDisjoint(a: TokenMap, b: TokenMap)
    requires forall k | k in a.counts :: k !in b.counts
    ensures CosSq(a, b) == 0.0
  {
    TotalZero(a.keys, Products(a.counts, b.counts));
  }

  /** Maps have positive similarity exactly when they share a key. */
  lemma CosinePositive(a: TokenMap, b: TokenMap)
    requires a.Valid() && b.Valid()
    ensures CosSq(a, b) > 0.0 <==> exists k :: k in a.counts && k in b.counts
  {
    if exists k :: k in a.counts && k in b.counts {
      var k :| k in a.counts && k in b.counts;
      var p := Products(a.counts, b.counts);
      TotalAtLeast(a.keys, p, k);
      assert Weight(p, k) == a.counts[k] * b.counts[k] >= 1;
      assert Dot(a, b) >= 1;
      assert a.keys != [] && b.keys != [] by {
        assert k in a.keys && k in b.keys;
      }
      SumSqPositive(a);
      SumSqPositive(b);
      QuotientPositive(Dot(a, b), SumSq(a), SumSq(b));
    } else {
      CosineDisjoint(a, b);
    }
  }

  /** `cosine(a, b) == cosine(b, a)`. */
  lemma CosineSymmetric(a: TokenMap, b: TokenMap)
    requires a.Valid() && b.Valid()
    ensures CosSq(a, b) == CosSq(b, a)
  {
    var p := Products(a.counts, b.counts);
    assert Products(b.counts, a.counts) == p;
    TotalOnly(a.keys, p);
    TotalOnly(b.keys, p);
    TotalPermutation(Only(a.keys, p), Only(b.keys, p), p);
    assert Dot(a, b) == Dot(b, a);
  }

  /** Key by key, the weight of a product or a square is the product of the weights. */
  lemma WeightProducts(x: map<string, nat>, y: map<string, nat>, k: string)
    ensures Weight(Products(x, y), k) == Weight(x, k) * Weight(y, k)
    ensures Weight(Squares(x), k) == Weight(x, k) * Weight(x, k)
  {
  }

  /** A smaller non-negative number has a smaller square. */
  lemma SquareStrict(u: nat, v: nat)
    ensures u < v ==> u * u < v * v
  {
    if u < v {
      assert u * u <= u * v;
    }
  }

  lemma MulLeft(c: nat, u: nat, v: nat)
    requires u <= v
    ensures c * u <= c * v
  {
  }

  /** `4pq <= (p + q)²`. */
  lemma FourProduct(p: nat, q: nat)
    ensures 4 * (p * q) <= (p + q) * (p + q)
  {
    assert (p + q) * (p + q) == (p - q) * (p - q) + 4 * (p * q);
  }

  lemma ExpandProduct(a: nat, b: nat, c: nat, d: nat)
    ensures (a + c) * (b + d) == a * b + a * d + c * b + c * d
  {
  }

  lemma RegroupFour(a: nat, b: nat, x: nat, y: nat)
    ensures (a * (y * y)) * ((x * x) * b) == ((x * y) * (x * y)) * (a * b)
  {
  }

  lemma RegroupDouble(z: nat, s: nat)
    ensures (2 * z * s) * (2 * z * s) == 4 * ((z * z) * (s * s))
  {
  }

  /** `2·(x·y)·s <= a·y² + x²·b` when `s² <= a·b`: the cross term of one more key. */
  lemma CrossTerm(s: nat, a: nat, b: nat, x: nat, y: nat)
    requires s * s <= a * b
    ensures 2 * (x * y) * s <= a * (y * y) + (x * x) * b
  {
    var xy := x * y;
    var p := a * (y * y);
    var q := (x * x) * b;
    var t := 2 * xy * s;
    FourProduct(p, q);
    RegroupFour(a, b, x, y);
    MulLeft(xy * xy, s * s, a * b);
    RegroupDouble(xy, s);
    SquareStrict(p + q, t);
  }

  /** One more key in the Cauchy–Schwarz inequality: from `s² <= a·b`, also
      `(s + x·y)² <= (a + x²)·(b + y²)`. */
  lemma CauchySchwarzStep(s: nat, a: nat, b: nat, x: nat, y: nat)
    requires s * s <= a * b
    ensures (s + x * y) * (s + x * y) <= (a + x * x) * (b + y * y)
  {
    var xy := x * y;
    CrossTerm(s, a, b, x, y);
    ExpandProduct(s, s, xy, xy);
    ExpandProduct(a, b, x * x, y * y);
    assert s * xy + xy * s == 2 * xy * s;
  }

  /** The Cauchy–Schwarz inequality over a sequence of keys, with absent keys weighing zero. */
  lemma {:induction false} CauchySchwarz(ks: seq<string>, x: map<string, nat>, y: map<string, nat>)
    ensures Total(ks, Products(x, y)) * Total(ks, Products(x, y)) <= Total(ks, Squares(x)) * Total(ks, Squares(y))
  {
    if ks != [] {
      var k := ks[0];
      CauchySchwarz(ks[1..], x, y);
      WeightProducts(x, y, k);
      WeightProducts(y, x, k);
      CauchySchwarzStep(Total(ks[1..], Products(x, y)), Total(ks[1..], Squares(x)), Total(ks[1..], Squares(y)),
        Weight(x, k), Weight(y, k));
    }
  }

  /** `dot² <= a2 · b2` for well-formed maps. */
  lemma DotSquareAtMost(a: TokenMap, b: TokenMap)
    requires a.Valid() && b.Valid()
    ensures Dot(a, b) * Dot(a, b) <= SumSq(a) * SumSq(b)
  {
    var sb := Squares(b.counts);
    CauchySchwarz(a.keys, a.counts, b.counts);
    TotalOnly(a.keys, sb);
    assert forall k | k in Only(a.keys, sb) :: k in b.keys;
    TotalSubset(Only(a.keys, sb), b.keys, sb);
    MulLeft(SumSq(a), Total(a.keys, sb), SumSq(b));
  }

  /** The cosine of well-formed maps is at most one. */
  lemma CosineAtMostOne(a: TokenMap, b: TokenMap)
    requires a.Valid() && b.Valid()
    ensures 0.0 <= CosSq(a, b) <= 1.0
  {
    DotSquareAtMost(a, b);
  }

  /** A non-empty map has similarity one with itself. */
  lemma CosineSelf(a: TokenMap)
    requires a.Valid() && a.keys != []
    ensures CosSq(a, a) == 1.0
  {
    assert Products(a.counts, a.counts) == Squares(a.counts);
    SumSqPositive(a);
    QuotientSelf(SumSq(a));
  }

  /** The loop `for (const [, v] of m) acc += v * v`. */
  method SquareSum(m: TokenMap) returns (acc: nat)
    requires m.Valid()
    ensures acc == SumSq(m)
  {
    acc := 0;
    for i := 0 to |m.keys|
      invariant acc == Total(m.keys[..i], Squares(m.counts))
    {
      var v := m.counts[m.keys[i]];
      acc := acc + v * v;
      assert m.keys[..i + 1] == m.keys[..i] + [m.keys[i]];
      TotalSnoc(m.keys[..i], m.keys[i], Squares(m.counts));
    }
    assert m.keys[..|m.keys|] == m.keys;
  }

  /** The loop over the entries of `a` that adds `av * bv` whenever `b.get(k)` is truthy. */
  method DotProduct(a: TokenMap, b: TokenMap) returns (dot: nat)
    requires a.Valid()
    ensures dot == Dot(a, b)
  {
    dot := 0;
    for i := 0 to |a.keys|
      invariant dot == Total(a.keys[..i], Products(a.counts, b.counts))
    {
      var k := a.keys[i];
      var av := a.counts[k];
      if k in b.counts && b.counts[k] != 0 {
        dot := dot + av * b.counts[k];
      }
      assert a.keys[..i + 1] == a.keys[..i] + [k];
      TotalSnoc(a.keys[..i], k, Products(a.counts, b.counts));
    }
    assert a.keys[..|a.keys|] == a.keys;
  }

  /** `cosine`, squared: the three sums, then the quotient (zero for a zero denominator). */
  method Cosine(a: TokenMap, b: TokenMap) returns (sq: real)
    requires a.Valid() && b.Valid()
    ensures sq == CosSq(a, b)
  {
    var a2 := SquareSum(a);
    var b2 := SquareSum(b);
    var dot := DotProduct(a, b);
    if a2 * b2 == 0 {
      sq := 0.0;
    } else {
      sq := (dot * dot) as real / (a2 * b2) as real;
    }
  }
}
