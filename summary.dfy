/** Titles and summaries of new issues (`topKeywords` and `summarize` in lib/cluster/issues.ts). */
module Summary {
  import opened Seqs
  import opened Text
  import opened Sums
  import opened Tokens

  /** One `[key, count]` pair of `tf.entries()`. */
  datatype Entry = Entry(key: string, count: nat)

  /** `Array.from(tf.entries())`: the pairs in key insertion order. */
  function Entries(m: TokenMap): (r: seq<Entry>)
    ensures |r| == |m.keys|
    ensures forall i | 0 <= i < |r| :: r[i] == Entry(m.keys[i], Weight(m.counts, m.keys[i]))
  {
    seq(|m.keys|, i requires 0 <= i < |m.keys| => Entry(m.keys[i], Weight(m.counts, m.keys[i])))
  }

  predicate NonIncreasing(es: seq<Entry>) {
    forall i, j | 0 <= i < j < |es| :: es[i].count >= es[j].count
  }

  predicate DistinctKeys(es: seq<Entry>) {
    forall i, j | 0 <= i < j < |es| :: es[i].key != es[j].key
  }

  /** Places `e` before the first entry whose count is not larger than its own. */
  function Insert(e: Entry, s: seq<Entry>): seq<Entry> {
    if s == [] || s[0].count <= e.count then [e] + s else [s[0]] + Insert(e, s[1..])
  }

  /** `sort((x, y) => y[1] - x[1])`: JavaScript's sort is stable, so this is a stable sort by
      non-increasing count, written as an insertion sort. */
  function SortByCount(es: seq<Entry>): seq<Entry> {
    if es == [] then [] else Insert(es[0], SortByCount(es[1..]))
  }

  /** The entries of count `c`, in order. */
  function WithCount(es: seq<Entry>, c: nat): (r: seq<Entry>)
    ensures forall x :: x in r <==> x in es && x.count == c
  {
    if es == [] then []
    else (if es[0].count == c then [es[0]] else []) + WithCount(es[1..], c)
  }

  lemma {:induction false} InsertMultiset(e: Entry, s: seq<Entry>)
    ensures multiset(Insert(e, s)) == multiset(s) + multiset{e}
  {
    if s != [] && s[0].count > e.count {
      InsertMultiset(e, s[1..]);
      assert s == [s[0]] + s[1..];
    }
  }

  lemma InsertMembers(e: Entry, s: seq<Entry>)
    ensures forall x :: x in Insert(e, s) <==> x == e || x in s
  {
    InsertMultiset(e, s);
    assert forall x :: x in Insert(e, s) <==> x in multiset(Insert(e, s));
    assert forall x :: x in s <==> x in multiset(s);
  }

  lemma NonIncreasingTail(s: seq<Entry>)
    requires s != [] && NonIncreasing(s)
    ensures NonIncreasing(s[1..])
    ensures forall x | x in s[1..] :: x.count <= s[0].count
  {
    forall i, j | 0 <= i < j < |s[1..]| ensures s[1..][i].count >= s[1..][j].count {
      assert s[1..][i] == s[i + 1] && s[1..][j] == s[j + 1];
    }
    forall x | x in s[1..] ensures x.count <= s[0].count {
      var k :| 0 <= k < |s[1..]| && s[1..][k] == x;
      assert s[k + 1] == x;
    }
  }

  /** A head no smaller than every element of a sorted tail gives a sorted sequence. */
  lemma ConsNonIncreasing(x: Entry, t: seq<Entry>)
    requires NonIncreasing(t)
    requires forall y | y in t :: y.count <= x.count
    ensures NonIncreasing([x] + t)
  {
    var r := [x] + t;
    forall i, j | 0 <= i < j < |r| ensures r[i].count >= r[j].count {
      assert r[j] == t[j - 1];
      if i > 0 {
        assert r[i] == t[i - 1];
      }
    }
  }

  lemma {:induction false} InsertSorted(e: Entry, s: seq<Entry>)
    requires NonIncreasing(s)
    ensures NonIncreasing(Insert(e, s))
  {
    if s == [] || s[0].count <= e.count {
      ConsNonIncreasing(e, s);
    } else {
      NonIncreasingTail(s);
      InsertSorted(e, s[1..]);
      InsertMembers(e, s[1..]);
      ConsNonIncreasing(s[0], Insert(e, s[1..]));
    }
  }

  lemma DistinctKeysTail(s: seq<Entry>)
    requires s != [] && DistinctKeys(s)
    ensures DistinctKeys(s[1..])
    ensures forall x | x in s[1..] :: x.key != s[0].key
  {
    forall i, j | 0 <= i < j < |s[1..]| ensures s[1..][i].key != s[1..][j].key {
      assert s[1..][i] == s[i + 1] && s[1..][j] == s[j + 1];
    }
    forall x | x in s[1..] ensures x.key != s[0].key {
      var k :| 0 <= k < |s[1..]| && s[1..][k] == x;
      assert s[k + 1] == x;
    }
  }

  lemma ConsDistinctKeys(x: Entry, t: seq<Entry>)
    requires DistinctKeys(t)
    requires forall y | y in t :: y.key != x.key
    ensures DistinctKeys([x] + t)
  {
    var r := [x] + t;
    forall i, j | 0 <= i < j < |r| ensures r[i].key != r[j].key {
      assert r[j] == t[j - 1];
      if i > 0 {
        assert r[i] == t[i - 1];
      }
    }
  }

  lemma {:induction false} InsertDistinctKeys(e: Entry, s: seq<Entry>)
    requires DistinctKeys(s)
    requires forall x | x in s :: x.key != e.key
    ensures DistinctKeys(Insert(e, s))
  {
    if s == [] || s[0].count <= e.count {
      ConsDistinctKeys(e, s);
    } else {
      DistinctKeysTail(s);
      InsertDistinctKeys(e, s[1..]);
      InsertMembers(e, s[1..]);
      ConsDistinctKeys(s[0], Insert(e, s[1..]));
    }
  }

  /** The sort is a permutation that orders by non-increasing count and keeps keys distinct. */
  lemma SortByCountSpec(es: seq<Entry>)
    ensures multiset(SortByCount(es)) == multiset(es)
    ensures |SortByCount(es)| == |es|
    ensures NonIncreasing(SortByCount(es))
    ensures DistinctKeys(es) ==> DistinctKeys(SortByCount(es))
  {
    SortByCountPermutation(es);
    SortByCountSorted(es);
    if DistinctKeys(es) {
      SortByCountDistinct(es);
    }
  }

  lemma {:induction false} SortByCountPermutation(es: seq<Entry>)
    ensures multiset(SortByCount(es)) == multiset(es)
    ensures |SortByCount(es)| == |es|
  {
    if es != [] {
      SortByCountPermutation(es[1..]);
      InsertMultiset(es[0], SortByCount(es[1..]));
      assert es == [es[0]] + es[1..];
      assert |multiset(SortByCount(es))| == |multiset(es)|;
    }
  }

  lemma {:induction false} SortByCountSorted(es: seq<Entry>)
    ensures NonIncreasing(SortByCount(es))
  {
    if es != [] {
      SortByCountSorted(es[1..]);
      InsertSorted(es[0], SortByCount(es[1..]));
    }
  }

  lemma {:induction false} SortByCountDistinct(es: seq<Entry>)
    requires DistinctKeys(es)
    ensures DistinctKeys(SortByCount(es))
  {
    if es != [] {
      var rest := SortByCount(es[1..]);
      DistinctKeysTail(es);
      SortByCountDistinct(es[1..]);
      SortByCountPermutation(es[1..]);
      assert forall x :: x in rest <==> x in es[1..] by {
        assert forall x :: x in rest <==> x in multiset(rest);
        assert forall x :: x in es[1..] <==> x in multiset(es[1..]);
      }
      InsertDistinctKeys(es[0], rest);
    }
  }

  /** Inserting into a sorted sequence keeps the relative order of the entries of any count. */
  lemma {:induction false} InsertWithCount(e: Entry, s: seq<Entry>, c: nat)
    requires NonIncreasing(s)
    ensures WithCount(Insert(e, s), c) == (if e.count == c then [e] else []) + WithCount(s, c)
  {
    if s != [] && s[0].count > e.count {
      NonIncreasingTail(s);
      InsertWithCount(e, s[1..], c);
      assert Insert(e, s)[0] == s[0];
      assert Insert(e, s)[1..] == Insert(e, s[1..]);
    }
  }

  /** The sort is stable: the entries of each count keep their input order. */
  lemma {:induction false} SortByCountStable(es: seq<Entry>, c: nat)
    ensures WithCount(SortByCount(es), c) == WithCount(es, c)
  {
    if es != [] {
      SortByCountStable(es[1..], c);
      SortByCountSpec(es[1..]);
      InsertWithCount(es[0], SortByCount(es[1..]), c);
    }
  }

  /** The key of `x` occurs in `toks` before the key of `y` does. */
  predicate Before(x: Entry, y: Entry, toks: seq<string>) {
    x.key in toks && y.key in toks && FirstIndex(toks, x.key) < FirstIndex(toks, y.key)
  }

  /** Entries ordered by the first occurrence of their keys in `toks`. */
  predicate FirstSeenOrder(es: seq<Entry>, toks: seq<string>) {
    forall i, j | 0 <= i < j < |es| :: Before(es[i], es[j], toks)
  }

  lemma FirstSeenOrderTail(s: seq<Entry>, toks: seq<string>)
    requires s != [] && FirstSeenOrder(s, toks)
    ensures FirstSeenOrder(s[1..], toks)
    ensures forall x | x in s[1..] :: Before(s[0], x, toks)
  {
    forall i, j | 0 <= i < j < |s[1..]| ensures Before(s[1..][i], s[1..][j], toks) {
      assert s[1..][i] == s[i + 1] && s[1..][j] == s[j + 1];
    }
    forall x | x in s[1..] ensures Before(s[0], x, toks) {
      var k :| 0 <= k < |s[1..]| && s[1..][k] == x;
      assert s[k + 1] == x;
    }
  }

  lemma ConsFirstSeenOrder(x: Entry, t: seq<Entry>, toks: seq<string>)
    requires FirstSeenOrder(t, toks)
    requires forall y | y in t :: Before(x, y, toks)
    ensures FirstSeenOrder([x] + t, toks)
  {
    var r := [x] + t;
    forall i, j | 0 <= i < j < |r| ensures Before(r[i], r[j], toks) {
      assert r[j] == t[j - 1];
      if i > 0 {
        assert r[i] == t[i - 1];
      }
    }
  }

  lemma {:induction false} WithCountOrder(es: seq<Entry>, toks: seq<string>, c: nat)
    requires FirstSeenOrder(es, toks)
    ensures FirstSeenOrder(WithCount(es, c), toks)
  {
    if es != [] {
      FirstSeenOrderTail(es, toks);
      WithCountOrder(es[1..], toks, c);
      if es[0].count == c {
        ConsFirstSeenOrder(es[0], WithCount(es[1..], c), toks);
      } else {
        assert WithCount(es, c) == WithCount(es[1..], c);
      }
    }
  }

  /** Two entries of the same count in `s` come in the order their count class lists them. */
  lemma {:induction false} SameCountPairs(s: seq<Entry>, toks: seq<string>, c: nat)
    requires FirstSeenOrder(WithCount(s, c), toks)
    ensures forall i, j | 0 <= i < j < |s| && s[i].count == c && s[j].count == c :: Before(s[i], s[j], toks)
  {
    if s != [] {
      var w := WithCount(s[1..], c);
      if s[0].count == c {
        assert WithCount(s, c) == [s[0]] + w;
        FirstSeenOrderTail([s[0]] + w, toks);
        assert ([s[0]] + w)[1..] == w;
      } else {
        assert WithCount(s, c) == w;
      }
      SameCountPairs(s[1..], toks, c);
      forall i, j | 0 <= i < j < |s| && s[i].count == c && s[j].count == c
        ensures Before(s[i], s[j], toks)
      {
        assert s[1..][j - 1] == s[j];
        if i > 0 {
          assert s[1..][i - 1] == s[i];
        } else {
          assert s[j] in w;
        }
      }
    }
  }

  function Keys(es: seq<Entry>): (r: seq<string>)
    ensures |r| == |es|
    ensures forall i | 0 <= i < |es| :: r[i] == es[i].key
  {
    seq(|es|, i requires 0 <= i < |es| => es[i].key)
  }

  /** The term-frequency entries of a text, sorted by count. */
  function RankedEntries(text: string): seq<Entry> {
    SortByCount(Entries(Tf(Tokenize(text))))
  }

  /** `topKeywords(text, max)` */
  function TopKeywords(text: string, max: nat): seq<string> {
    TopKeys(RankedEntries(text), max)
  }

  /** The entries of a text's term-frequency map are its distinct tokens with their counts,
      in first-occurrence order. */
  lemma EntriesSpec(toks: seq<string>)
    ensures DistinctKeys(Entries(Tf(toks)))
    ensures FirstSeenOrder(Entries(Tf(toks)), toks)
    ensures forall x | x in Entries(Tf(toks)) :: x.key in toks && x.count == Occurrences(toks, x.key)
    ensures forall t | t in toks :: Entry(t, Occurrences(toks, t)) in Entries(Tf(toks))
  {
    var m := Tf(toks);
    var es := Entries(m);
    TfSpec(toks);
    DedupMembers(toks);
    DedupFirstOccurrenceOrder(toks);
    forall t | t in toks ensures Entry(t, Occurrences(toks, t)) in es {
      assert t in Dedup(toks);
      var k :| 0 <= k < |m.keys| && m.keys[k] == t;
      assert es[k] == Entry(t, Occurrences(toks, t));
    }
    forall x | x in es ensures x.key in toks && x.count == Occurrences(toks, x.key) {
      var k :| 0 <= k < |es| && es[k] == x;
      assert m.keys[k] in Dedup(toks);
    }
  }

  /** The ranked entries of a text are its distinct tokens with their counts, sorted by
      non-increasing count, ties in order of first occurrence. */
  lemma RankedEntriesSpec(text: string)
    ensures var sorted := RankedEntries(text); var toks := Tokenize(text);
      && |sorted| == |Dedup(toks)|
      && DistinctKeys(sorted)
      && NonIncreasing(sorted)
      && (forall x | x in sorted :: x.key in toks && x.count == Occurrences(toks, x.key))
      && (forall t | t in toks :: Entry(t, Occurrences(toks, t)) in sorted)
      && (forall i, j | 0 <= i < j < |sorted| && sorted[i].count == sorted[j].count :: Before(sorted[i], sorted[j], toks))
  {
    var toks := Tokenize(text);
    var es := Entries(Tf(toks));
    var sorted := SortByCount(es);
    TfSpec(toks);
    EntriesSpec(toks);
    SortByCountSpec(es);
    assert forall x :: x in sorted <==> x in es by {
      assert forall x :: x in sorted <==> x in multiset(sorted);
      assert forall x :: x in es <==> x in multiset(es);
    }
    forall i, j | 0 <= i < j < |sorted| && sorted[i].count == sorted[j].count
      ensures Before(sorted[i], sorted[j], toks)
    {
      var c := sorted[i].count;
      WithCountOrder(es, toks, c);
      SortByCountStable(es, c);
      SameCountPairs(sorted, toks, c);
    }
  }

  /** The first `n` keys of entries ranked from `toks`. */
  function TopKeys(sorted: seq<Entry>, max: nat): seq<string> {
    Keys(sorted[..if max < |sorted| then max else |sorted|])
  }

  /** The first keys of a ranking of `toks` are distinct tokens of `toks`, as many as asked for
      when there are that many. */
  lemma TopKeysTokens(sorted: seq<Entry>, toks: seq<string>, max: nat)
    requires |sorted| == |Dedup(toks)| && DistinctKeys(sorted)
    requires forall x | x in sorted :: x.key in toks
    ensures var r := TopKeys(sorted, max);
      && |r| <= max
      && (|Dedup(toks)| <= max ==> |r| == |Dedup(toks)|)
      && (max <= |Dedup(toks)| ==> |r| == max)
      && Distinct(r)
      && (forall i | 0 <= i < |r| :: r[i] in toks)
  {
    var r := TopKeys(sorted, max);
    forall i | 0 <= i < |r| ensures r[i] in toks {
      assert sorted[i] in sorted;
    }
    forall i, j | 0 <= i < j < |r| ensures r[i] != r[j] {
      assert sorted[i].key != sorted[j].key;
    }
  }

  /** The first keys of a ranking come in the ranking's order. */
  lemma TopKeysOrder(sorted: seq<Entry>, toks: seq<string>, max: nat)
    requires NonIncreasing(sorted)
    requires forall x | x in sorted :: x.key in toks && x.count == Occurrences(toks, x.key)
    requires forall i, j | 0 <= i < j < |sorted| && sorted[i].count == sorted[j].count :: Before(sorted[i], sorted[j], toks)
    ensures var r := TopKeys(sorted, max);
      && (forall i, j | 0 <= i < j < |r| :: r[i] in toks && r[j] in toks && Occurrences(toks, r[i]) >= Occurrences(toks, r[j]))
      && (forall i, j | 0 <= i < j < |r| && Occurrences(toks, r[i]) == Occurrences(toks, r[j]) ::
            r[i] in toks && r[j] in toks && FirstIndex(toks, r[i]) < FirstIndex(toks, r[j]))
  {
    var r := TopKeys(sorted, max);
    forall i, j | 0 <= i < j < |r|
      ensures r[i] in toks && r[j] in toks
      ensures Occurrences(toks, r[i]) == sorted[i].count
      ensures Occurrences(toks, r[j]) == sorted[j].count
    {
      assert sorted[i] in sorted && sorted[j] in sorted;
    }
  }

  /** In a sorted sequence, an entry whose key is not among the first `n` keys counts no
      more than any of them. */
  lemma OutsidePrefix(sorted: seq<Entry>, n: nat, p: nat, i: nat)
    requires NonIncreasing(sorted) && n <= |sorted| && p < |sorted| && i < n
    requires sorted[p].key !in Keys(sorted[..n])
    ensures sorted[i].count >= sorted[p].count
  {
    var r := Keys(sorted[..n]);
    assert forall q | 0 <= q < n :: r[q] == sorted[q].key && r[q] in r;
  }

  /** No token left out of the first keys of a ranking is more frequent than one of them. */
  lemma TopKeysMostFrequent(sorted: seq<Entry>, toks: seq<string>, max: nat)
    requires NonIncreasing(sorted)
    requires forall x | x in sorted :: x.key in toks && x.count == Occurrences(toks, x.key)
    requires forall t | t in toks :: Entry(t, Occurrences(toks, t)) in sorted
    ensures var r := TopKeys(sorted, max);
      forall t, i | t in toks && t !in r && 0 <= i < |r| :: r[i] in toks && Occurrences(toks, r[i]) >= Occurrences(toks, t)
  {
    var n := if max < |sorted| then max else |sorted|;
    var r := TopKeys(sorted, max);
    forall t, i | t in toks && t !in r && 0 <= i < |r|
      ensures r[i] in toks && Occurrences(toks, r[i]) >= Occurrences(toks, t)
    {
      assert sorted[i] in sorted;
      var p :| 0 <= p < |sorted| && sorted[p] == Entry(t, Occurrences(toks, t));
      OutsidePrefix(sorted, n, p, i);
    }
  }

  /** `topKeywords` returns at most `max` distinct tokens of the text: `max` of them when the
      text has that many distinct tokens, all of them otherwise. */
  lemma TopKeywordsTokens(text: string, max: nat)
    ensures var r := TopKeywords(text, max); var toks := Tokenize(text);
      && |r| <= max
      && (|Dedup(toks)| <= max ==> |r| == |Dedup(toks)|)
      && (max <= |Dedup(toks)| ==> |r| == max)
      && Distinct(r)
      && (forall i | 0 <= i < |r| :: r[i] in toks)
  {
    RankedEntriesSpec(text);
    TopKeysTokens(RankedEntries(text), Tokenize(text), max);
  }

  /** `topKeywords` lists its tokens in non-increasing order of frequency, and tokens of equal
      frequency in order of first occurrence. */
  lemma TopKeywordsOrder(text: string, max: nat)
    ensures var r := TopKeywords(text, max); var toks := Tokenize(text);
      && (forall i, j | 0 <= i < j < |r| :: r[i] in toks && r[j] in toks && Occurrences(toks, r[i]) >= Occurrences(toks, r[j]))
      && (forall i, j | 0 <= i < j < |r| && Occurrences(toks, r[i]) == Occurrences(toks, r[j]) ::
            r[i] in toks && r[j] in toks && FirstIndex(toks, r[i]) < FirstIndex(toks, r[j]))
  {
    RankedEntriesSpec(text);
    TopKeysOrder(RankedEntries(text), Tokenize(text), max);
  }

  /** No token left out of `topKeywords` is more frequent than one it returns. */
  lemma TopKeywordsMostFrequent(text: string, max: nat)
    ensures var r := TopKeywords(text, max); var toks := Tokenize(text);
      forall t, i | t in toks && t !in r && 0 <= i < |r| :: r[i] in toks && Occurrences(toks, r[i]) >= Occurrences(toks, t)
  {
    RankedEntriesSpec(text);
    TopKeysMostFrequent(RankedEntries(text), Tokenize(text), max);
  }

  /** The title of a new issue: its keywords joined by spaces, or "New issue". */
  function IssueTitle(kw: seq<string>): string {
    if |kw| > 0 then Join(kw, " ") else "New issue"
  }

  /** A new issue's title splits back into its keywords; a text without keywords gets
      "New issue". */
  lemma IssueTitleKeywords(text: string)
    ensures TopKeywords(text, 6) != [] ==> Split(IssueTitle(TopKeywords(text, 6))) == TopKeywords(text, 6)
    ensures TopKeywords(text, 6) == [] ==> IssueTitle(TopKeywords(text, 6)) == "New issue"
  {
    var kw := TopKeywords(text, 6);
    var toks := Tokenize(text);
    TopKeywordsTokens(text, 6);
    TokenizeWords(text);
    if kw != [] {
      forall i | 0 <= i < |kw| ensures ' ' !in kw[i] {
        var k :| 0 <= k < |toks| && toks[k] == kw[i];
        assert IsWord(toks[k]);
      }
      SplitJoin(kw);
    }
  }

  const ELLIPSIS: char := '\U{2026}'

  /** The summary length new issues use. */
  const SUMMARY_LEN: nat := 240

  /** `summarize(text, maxLen)`: the whitespace-collapsed, trimmed text, cut to `maxLen - 1`
      characters plus an ellipsis when it is longer than `maxLen`. A `maxLen` of zero makes
      `slice(0, -1)` drop the last character. */
  function Summarize(text: string, maxLen: nat): string {
    var clean := Trim(Collapse(text));
    if |clean| <= maxLen then clean
    else
      var end := if maxLen >= 1 then maxLen - 1 else |clean| - 1;
      clean[..end] + [ELLIPSIS]
  }

  /** A short text is its own summary; a long one becomes a prefix of it plus an ellipsis, and
      the summary is never longer than `maxLen` when `maxLen` is at least one. */
  lemma SummarizeSpec(text: string, maxLen: nat)
    ensures var clean := Trim(Collapse(text)); var r := Summarize(text, maxLen);
      && (|clean| <= maxLen ==> r == clean)
      && (|clean| > maxLen ==> |r| >= 1 && r[|r| - 1] == ELLIPSIS && r[..|r| - 1] <= clean)
      && (|clean| > maxLen && maxLen >= 1 ==> |r| == maxLen)
      && (maxLen >= 1 ==> |r| <= maxLen)
  {
  }
}
