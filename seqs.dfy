/** Generic sequence helpers shared by the tokenizer, the clustering cache and the keyword list. */
module Seqs {

  datatype Option<T> = None | Some(value: T)

  /** `s.map(f)`, built from the back so that it unfolds one element at a time. */
  function Map<A, B>(f: A -> B, s: seq<A>): (r: seq<B>)
    ensures |r| == |s|
  {
    if s == [] then [] else Map(f, s[..|s| - 1]) + [f(s[|s| - 1])]
  }

  /** Entry `i` of `Map(f, s)` is `f(s[i])`. */
  lemma {:induction false} MapAt<A, B>(f: A -> B, s: seq<A>, i: nat)
    requires i < |s|
    ensures Map(f, s)[i] == f(s[i])
  {
    var n := |s| - 1;
    if i < n {
      MapAt(f, s[..n], i);
    }
  }

  /** No element occurs twice. */
  predicate Distinct<T(==)>(s: seq<T>) {
    forall i, j | 0 <= i < j < |s| :: s[i] != s[j]
  }

  /** Number of occurrences of `x` in `s` (counted from the back, as a left-to-right loop builds it). */
  function Occurrences<T(==)>(s: seq<T>, x: T): (n: nat)
    ensures n <= |s|
    ensures n == 0 <==> x !in s
  {
    if s == [] then 0
    else Occurrences(s[..|s| - 1], x) + (if s[|s| - 1] == x then 1 else 0)
  }

  /** The elements of `s` in order of first occurrence, each once: what a loop with a
      "seen" set that appends unseen elements produces. */
  function Dedup<T(==)>(s: seq<T>): (r: seq<T>)
    ensures Distinct(r)
    ensures |r| <= |s|
  {
    if s == [] then []
    else
      var d := Dedup(s[..|s| - 1]);
      if s[|s| - 1] in d then d else d + [s[|s| - 1]]
  }

  /** One more element: Dedup appends it when it is new and ignores it otherwise. */
  lemma DedupSnoc<T>(p: seq<T>, x: T)
    ensures Dedup(p + [x]) == if x in Dedup(p) then Dedup(p) else Dedup(p) + [x]
  {
    assert (p + [x])[..|p + [x]| - 1] == p;
  }

  /** The same step for a prefix growing by one element. */
  lemma DedupPrefix<T>(s: seq<T>, i: nat)
    requires i < |s|
    ensures Dedup(s[..i + 1]) == if s[i] in Dedup(s[..i]) then Dedup(s[..i]) else Dedup(s[..i]) + [s[i]]
  {
    assert s[..i + 1] == s[..i] + [s[i]];
    DedupSnoc(s[..i], s[i]);
  }

  /** Dedup drops repetitions only: it keeps every element and adds none. */
  lemma {:induction false} DedupMembers<T(!new)>(s: seq<T>)
    ensures forall x :: x in Dedup(s) <==> x in s
  {
    if s != [] {
      DedupMembers(s[..|s| - 1]);
      assert s == s[..|s| - 1] + [s[|s| - 1]];
    }
  }

  /** Index of the first occurrence of `x` in `s`. */
  function FirstIndex<T(==)>(s: seq<T>, x: T): (i: nat)
    requires x in s
    ensures i < |s| && s[i] == x
    ensures forall j | 0 <= j < i :: s[j] != x
  {
    if s[0] == x then 0 else 1 + FirstIndex(s[1..], x)
  }

  lemma {:induction false} FirstIndexOfPrefix<T>(s: seq<T>, p: seq<T>, x: T)
    requires p <= s && x in p
    ensures x in s && FirstIndex(s, x) == FirstIndex(p, x)
  {
    if p[0] != x {
      assert p[1..] <= s[1..];
      assert x in p[1..];
      FirstIndexOfPrefix(s[1..], p[1..], x);
    }
  }

  /** Dedup keeps the elements in the order of their first occurrence in the input. */
  lemma {:induction false} DedupFirstOccurrenceOrder<T(!new)>(s: seq<T>)
    ensures forall i, j | 0 <= i < j < |Dedup(s)| ::
      Dedup(s)[i] in s && Dedup(s)[j] in s && FirstIndex(s, Dedup(s)[i]) < FirstIndex(s, Dedup(s)[j])
  {
    if s != [] {
      var p := s[..|s| - 1];
      var x := s[|s| - 1];
      var d := Dedup(p);
      DedupFirstOccurrenceOrder(p);
      DedupMembers(p);
      DedupMembers(s);
      assert p <= s;
      forall i | 0 <= i < |d| ensures d[i] in p && d[i] in s && FirstIndex(s, d[i]) == FirstIndex(p, d[i]) < |p| {
        assert d[i] in d;
        FirstIndexOfPrefix(s, p, d[i]);
      }
      if x !in d {
        assert x !in p;
        assert FirstIndex(s, x) == |p|;
        SnocFirstOrder(s, d, x);
      }
    }
  }

  /** Appending an element that first occurs after all of `d` keeps `d` in first-occurrence
      order. */
  lemma SnocFirstOrder<T(!new)>(s: seq<T>, d: seq<T>, x: T)
    requires x in s
    requires forall i | 0 <= i < |d| :: d[i] in s && FirstIndex(s, d[i]) < FirstIndex(s, x)
    requires forall i, j | 0 <= i < j < |d| :: FirstIndex(s, d[i]) < FirstIndex(s, d[j])
    ensures forall i, j | 0 <= i < j < |d + [x]| :: FirstIndex(s, (d + [x])[i]) < FirstIndex(s, (d + [x])[j])
  {
    var r := d + [x];
    forall i, j | 0 <= i < j < |r| ensures FirstIndex(s, r[i]) < FirstIndex(s, r[j]) {
      if j < |d| {
        assert r[i] == d[i] && r[j] == d[j];
      } else {
        assert r[i] == d[i];
      }
    }
  }

  /** `xs.join(sep)` for a list of strings. */
  function Join(xs: seq<string>, sep: string): (r: string)
  {
    if xs == [] then []
    else if |xs| == 1 then xs[0]
    else xs[0] + sep + Join(xs[1..], sep)
  }

  /** `s.split(" ")`: the pieces between single spaces; always at least one piece. */
  function Split(s: string): (r: seq<string>)
    ensures |r| >= 1
    ensures forall i | 0 <= i < |r| :: ' ' !in r[i]
    ensures forall i, c | 0 <= i < |r| && c in r[i] :: c in s
  {
    if s == [] then [[]]
    else
      var rest := Split(s[1..]);
      assert forall c | c in s[1..] :: c in s;
      if s[0] == ' ' then
        var r := [[]] + rest;
        assert forall i | 1 <= i < |r| :: r[i] == rest[i - 1];
        r
      else
        var r := [[s[0]] + rest[0]] + rest[1..];
        assert forall i | 1 <= i < |r| :: r[i] == rest[i];
        r
  }

  /** Joining the pieces of a split with a single space gives the string back. */
  lemma {:induction false} JoinSplit(s: string)
    ensures Join(Split(s), " ") == s
  {
    if s != [] {
      var rest := Split(s[1..]);
      JoinSplit(s[1..]);
      if s[0] == ' ' {
        assert Split(s) == [[]] + rest;
        assert Split(s)[1..] == rest;
      } else {
        var r := Split(s);
        assert r == [[s[0]] + rest[0]] + rest[1..];
        if |rest| == 1 {
          assert r == [[s[0]] + rest[0]];
        } else {
          assert r[1..] == rest[1..];
          assert Join(rest, " ") == rest[0] + " " + Join(rest[1..], " ");
        }
      }
    }
  }

  /** Splitting a space-joined list of space-free words gives the words back. */
  lemma {:induction false} SplitJoin(xs: seq<string>)
    requires |xs| >= 1
    requires forall i | 0 <= i < |xs| :: ' ' !in xs[i]
    ensures Split(Join(xs, " ")) == xs
  {
    if |xs| == 1 {
      SplitSpaceFree(xs[0]);
    } else {
      SplitJoin(xs[1..]);
      SplitPrefix(xs[0], Join(xs[1..], " "));
    }
  }

  lemma {:induction false} SplitSpaceFree(w: string)
    requires ' ' !in w
    ensures Split(w) == [w]
  {
    if w != [] {
      SplitSpaceFree(w[1..]);
      assert [w[0]] + w[1..] == w;
    }
  }

  lemma {:induction false} SplitPrefix(w: string, t: string)
    requires ' ' !in w
    ensures Split(w + " " + t) == [w] + Split(t)
  {
    if w == [] {
      assert w + " " + t == [' '] + t;
      assert ([' '] + t)[1..] == t;
    } else {
      assert (w + " " + t)[1..] == w[1..] + " " + t;
      SplitPrefix(w[1..], t);
      assert [w[0]] + w[1..] == w;
    }
  }
}
