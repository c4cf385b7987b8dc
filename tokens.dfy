/** The text pipeline of the clustering engine (lib/cluster/issues.ts): normalisation,
    tokenisation with stopword removal, and the term-frequency map. */
module Tokens {
  import opened Seqs
  import opened Text
  import opened Sums

  /** The stopwords the tokenizer drops. */
  const STOPWORDS: set<string> := {
    "the", "a", "an", "and", "or", "but", "if", "then", "else", "to", "of", "in", "on", "for", "with", "at", "by",
    "from", "as", "is", "are", "was", "were", "be", "been", "being", "it", "this", "that", "these", "those",
    "you", "your", "we", "our", "they", "their", "i", "me", "my", "he", "she", "his", "her", "them", "us",
    "not", "no", "yes", "can", "could", "should", "would", "will", "just", "about", "into", "over", "under",
    "more", "most", "less", "very", "new", "now"
  }

  /** A non-empty run of `[a-z0-9]`: the shape of every token. */
  predicate IsWord(w: string) {
    forall i | 0 <= i < |w| :: IsLowerAlnum(w[i])
  }

  /** Only `[a-z0-9]` and plain spaces. */
  predicate WordsAndSpaces(s: string) {
    forall i | 0 <= i < |s| :: IsLowerAlnum(s[i]) || s[i] == ' '
  }

  /** Every character outside `[a-z0-9]` and whitespace becomes a space; the rest stay. */
  function Scrub(s: string): (r: string)
    ensures |r| == |s|
    ensures forall i | 0 <= i < |s| :: IsLowerAlnum(r[i]) || IsSpace(r[i])
    ensures forall i | 0 <= i < |s| :: (IsLowerAlnum(s[i]) || IsSpace(s[i])) ==> r[i] == s[i]
    ensures forall i | 0 <= i < |s| :: !(IsLowerAlnum(s[i]) || IsSpace(s[i])) ==> r[i] == ' '
  {
    seq(|s|, i requires 0 <= i < |s| => if IsLowerAlnum(s[i]) || IsSpace(s[i]) then s[i] else ' ')
  }

  /** The `[a-z0-9]` characters of `s`, in order. */
  function LowerAlnums(s: string): string {
    if s == [] then [] else (if IsLowerAlnum(s[0]) then [s[0]] else []) + LowerAlnums(s[1..])
  }

  /** Scrubbing keeps exactly the letters and digits, in order, apart from whitespace. */
  lemma {:induction false} ScrubNonSpaces(s: string)
    ensures NonSpaces(Scrub(s)) == LowerAlnums(s)
  {
    if s != [] {
      var r := Scrub(s);
      assert r == [r[0]] + Scrub(s[1..]);
      ScrubNonSpaces(s[1..]);
      NonSpacesAppend([r[0]], Scrub(s[1..]));
    }
  }

  /** The clustering `normalize`: lower-case, punctuation to spaces, whitespace collapsed, trimmed. */
  function ClusterNormalize(s: string): string {
    Trim(Collapse(Scrub(Lower(s))))
  }

  /** The clustering normaliser leaves only `[a-z0-9]` and single spaces, with no space at
      either end, and keeps every letter and digit of the lower-cased text, in order. */
  lemma ClusterNormalizeShape(s: string)
    ensures WordsAndSpaces(ClusterNormalize(s))
    ensures SingleSpaced(ClusterNormalize(s))
    ensures ClusterNormalize(s) == [] || (ClusterNormalize(s)[0] != ' ' && ClusterNormalize(s)[|ClusterNormalize(s)| - 1] != ' ')
    ensures NonSpaces(ClusterNormalize(s)) == LowerAlnums(Lower(s))
  {
    var l := Scrub(Lower(s));
    var c := Collapse(l);
    ScrubNonSpaces(Lower(s));
    CollapseNonSpaces(l);
    TrimNonSpaces(c);
    CollapseChars(l);
    CollapseSingleSpaced(l);
    TrimSingleSpaced(c);
    assert WordsAndSpaces(c) by {
      forall i | 0 <= i < |c| ensures IsLowerAlnum(c[i]) || c[i] == ' ' {
        if c[i] != ' ' {
          var j :| 0 <= j < |l| && l[j] == c[i];
        }
      }
    }
    var r := Trim(c);
    forall i | 0 <= i < |r| ensures IsLowerAlnum(r[i]) || r[i] == ' ' {
      var j :| 0 <= j < |c| && c[j] == r[i];
    }
  }

  /** Trims every piece and keeps those of at least three characters that are not stopwords. */
  function Keep(ws: seq<string>): (r: seq<string>)
    ensures forall i | 0 <= i < |r| :: |r[i]| >= 3 && r[i] !in STOPWORDS
  {
    if ws == [] then []
    else
      var w := Trim(ws[0]);
      (if |w| >= 3 && w !in STOPWORDS then [w] else []) + Keep(ws[1..])
  }

  /** A word has no whitespace at either end, so `Keep` leaves it as it is. */
  lemma KeepHead(ws: seq<string>)
    requires ws != [] && IsWord(ws[0])
    ensures Keep(ws) == (if |ws[0]| >= 3 && ws[0] !in STOPWORDS then [ws[0]] else []) + Keep(ws[1..])
  {
    var w := ws[0];
    assert w == [] || (!IsSpace(w[0]) && !IsSpace(w[|w| - 1]));
    TrimTrimmed(w);
  }

  /** On words, `Keep` keeps words. */
  lemma {:induction false} KeepWords(ws: seq<string>)
    requires forall i | 0 <= i < |ws| :: IsWord(ws[i])
    ensures forall i | 0 <= i < |Keep(ws)| :: IsWord(Keep(ws)[i])
  {
    if ws != [] {
      KeepWords(ws[1..]);
      KeepHead(ws);
    }
  }

  /** On words, `Keep` is a filter: it keeps exactly the long non-stopwords. */
  lemma {:induction false} KeepMembers(ws: seq<string>)
    requires forall i | 0 <= i < |ws| :: IsWord(ws[i])
    ensures forall w :: w in Keep(ws) <==> w in ws && |w| >= 3 && w !in STOPWORDS
  {
    if ws != [] {
      KeepMembers(ws[1..]);
      KeepHead(ws);
      assert forall x :: x in ws <==> x == ws[0] || x in ws[1..];
    }
  }

  /** Splitting a text of words and spaces gives words. */
  lemma SplitWords(s: string)
    requires WordsAndSpaces(s)
    ensures forall i | 0 <= i < |Split(s)| :: IsWord(Split(s)[i])
  {
    var r := Split(s);
    forall i, j | 0 <= i < |r| && 0 <= j < |r[i]| ensures IsLowerAlnum(r[i][j]) {
      assert r[i][j] in r[i];
      assert r[i][j] in s;
      var k :| 0 <= k < |s| && s[k] == r[i][j];
    }
  }

  /** `tokenize` */
  function Tokenize(text: string): (r: seq<string>)
    ensures forall i | 0 <= i < |r| :: |r[i]| >= 3 && r[i] !in STOPWORDS
  {
    var t := ClusterNormalize(text);
    if t == [] then [] else Keep(Split(t))
  }

  /** Every token is a run of `[a-z0-9]`. */
  lemma TokenizeWords(text: string)
    ensures forall i | 0 <= i < |Tokenize(text)| :: IsWord(Tokenize(text)[i])
  {
    var t := ClusterNormalize(text);
    ClusterNormalizeShape(text);
    SplitWords(t);
    KeepWords(Split(t));
  }

  /** Every token is a run of `[a-z0-9]`; the tokens are exactly the space-separated words
      of the normalised text that have three characters or more and are not stopwords; a text
      that normalises to nothing has no token. */
  lemma TokenizeSpec(text: string)
    ensures forall i | 0 <= i < |Tokenize(text)| :: IsWord(Tokenize(text)[i])
    ensures forall w :: w in Tokenize(text) <==>
      w in Split(ClusterNormalize(text)) && |w| >= 3 && w !in STOPWORDS
    ensures ClusterNormalize(text) == [] ==> Tokenize(text) == []
  {
    var t := ClusterNormalize(text);
    ClusterNormalizeShape(text);
    SplitWords(t);
    KeepWords(Split(t));
    KeepMembers(Split(t));
  }

  /** A token has no space. */
  lemma WordSpaceFree(w: string)
    requires IsWord(w)
    ensures ' ' !in w
  {
    assert forall i | 0 <= i < |w| :: w[i] != ' ';
  }

  /** Words joined by single spaces: only `[a-z0-9]` and single spaces, and a word character
      at either end. */
  lemma {:induction false} JoinWordsShape(xs: seq<string>)
    requires |xs| >= 1
    requires forall i | 0 <= i < |xs| :: IsWord(xs[i]) && |xs[i]| >= 1
    ensures var j := Join(xs, " ");
      && |j| >= 1 && WordsAndSpaces(j) && SingleSpaced(j) && IsLowerAlnum(j[0]) && IsLowerAlnum(j[|j| - 1])
  {
    if |xs| > 1 {
      var w := xs[0];
      var r := Join(xs[1..], " ");
      JoinWordsShape(xs[1..]);
      var j := w + " " + r;
      assert Join(xs, " ") == j;
      assert forall i | 0 <= i < |w| :: j[i] == w[i];
      assert j[|w|] == ' ';
      assert forall i | |w| < i < |j| :: j[i] == r[i - |w| - 1];
    }
  }

  /** A text already in normal form is left alone by the clustering normaliser. */
  lemma ClusterNormalizeFixed(s: string)
    requires |s| >= 1 && WordsAndSpaces(s) && SingleSpaced(s) && IsLowerAlnum(s[0]) && IsLowerAlnum(s[|s| - 1])
    ensures ClusterNormalize(s) == s
  {
    assert Lower(s) == s;
    assert Scrub(s) == s;
    CollapseSingleSpacedIdentity(s);
    TrimTrimmed(s);
  }

  /** On long non-stopwords, `Keep` keeps everything. */
  lemma {:induction false} KeepAll(ws: seq<string>)
    requires forall i | 0 <= i < |ws| :: IsWord(ws[i]) && |ws[i]| >= 3 && ws[i] !in STOPWORDS
    ensures Keep(ws) == ws
  {
    if ws != [] {
      KeepHead(ws);
      KeepAll(ws[1..]);
    }
  }

  /** Long non-stopwords joined by single spaces tokenize back to themselves. */
  lemma TokenizeJoinWords(ws: seq<string>)
    requires forall i | 0 <= i < |ws| :: IsWord(ws[i]) && |ws[i]| >= 3 && ws[i] !in STOPWORDS
    ensures Tokenize(Join(ws, " ")) == ws
  {
    if ws == [] {
      assert ClusterNormalize([]) == [];
    } else {
      var j := Join(ws, " ");
      JoinWordsShape(ws);
      ClusterNormalizeFixed(j);
      forall i | 0 <= i < |ws| ensures ' ' !in ws[i] {
        WordSpaceFree(ws[i]);
      }
      SplitJoin(ws);
      KeepAll(ws);
    }
  }

  /** Tokenizing the space-joined tokens of a text gives the same tokens back. */
  lemma TokenizeIdempotent(x: string)
    ensures Tokenize(Join(Tokenize(x), " ")) == Tokenize(x)
  {
    TokenizeWords(x);
    TokenizeJoinWords(Tokenize(x));
  }

  /** A JavaScript `Map<string, number>`: the keys in insertion order and the count of each. */
  datatype TokenMap = TokenMap(keys: seq<string>, counts: map<string, nat>)
  {
    /** Keys are distinct, they are exactly the map's domain, and every count is positive. */
    predicate Valid() {
      && Distinct(keys)
      && (forall k | k in counts :: k in keys)
      && (forall k | k in keys :: k in counts)
      && (forall k | k in counts :: counts[k] >= 1)
    }
  }

  /** `m.set(tok, (m.get(tok) ?? 0) + 1)`: an existing key keeps its place, a new key goes last. */
  function Add(m: TokenMap, tok: string): TokenMap {
    if tok in m.counts then TokenMap(m.keys, m.counts[tok := m.counts[tok] + 1])
    else TokenMap(m.keys + [tok], m.counts[tok := 1])
  }

  /** The term-frequency map of `tokens`, as the left-to-right loop builds it. */
  function Tf(tokens: seq<string>): TokenMap {
    if tokens == [] then TokenMap([], map[])
    else Add(Tf(tokens[..|tokens| - 1]), tokens[|tokens| - 1])
  }

  /** Adding a token keeps a map well-formed. */
  lemma AddValid(m: TokenMap, tok: string)
    requires m.Valid()
    ensures Add(m, tok).Valid()
  {
    if tok !in m.counts {
      var r := m.keys + [tok];
      assert Distinct(r) by {
        forall i, j | 0 <= i < j < |r| ensures r[i] != r[j] {
          if j == |r| - 1 {
            assert r[i] in m.keys;
          }
        }
      }
    }
  }

  /** Adding a token raises the total count by one. */
  lemma AddTotal(m: TokenMap, tok: string)
    requires m.Valid()
    ensures Total(Add(m, tok).keys, Add(m, tok).counts) == Total(m.keys, m.counts) + 1
  {
    if tok in m.counts {
      TotalUpdateInside(m.keys, m.counts, tok, m.counts[tok] + 1);
    } else {
      TotalSnoc(m.keys, tok, m.counts[tok := 1]);
      TotalUpdateOutside(m.keys, m.counts, tok, 1);
    }
  }

  lemma {:induction false} TfValid(tokens: seq<string>)
    ensures Tf(tokens).Valid()
  {
    if tokens != [] {
      TfValid(tokens[..|tokens| - 1]);
      AddValid(Tf(tokens[..|tokens| - 1]), tokens[|tokens| - 1]);
    }
  }

  /** The keys of the term-frequency map are the distinct tokens in order of first occurrence,
      and a token has a count exactly when it occurs. */
  lemma {:induction false} TfKeys(tokens: seq<string>)
    ensures Tf(tokens).keys == Dedup(tokens)
    ensures forall k :: k in Tf(tokens).counts <==> k in tokens
  {
    if tokens != [] {
      var p := tokens[..|tokens| - 1];
      var x := tokens[|tokens| - 1];
      TfKeys(p);
      DedupMembers(p);
      assert tokens == p + [x];
      assert forall k :: k in tokens <==> k in p || k == x;
    }
  }

  /** One more token: the counts of the longer prefix. */
  lemma TfCountsStep(p: seq<string>, x: string)
    requires forall k | k in Tf(p).counts :: Tf(p).counts[k] == Occurrences(p, k)
    requires forall k :: k in Tf(p).counts <==> k in p
    ensures forall k | k in Tf(p + [x]).counts :: Tf(p + [x]).counts[k] == Occurrences(p + [x], k)
  {
    assert (p + [x])[..|p + [x]| - 1] == p;
    forall k | k in Tf(p + [x]).counts ensures Tf(p + [x]).counts[k] == Occurrences(p + [x], k) {
      assert Occurrences(p + [x], k) == Occurrences(p, k) + (if x == k then 1 else 0);
    }
  }

  /** Each count is the token's number of occurrences. */
  lemma {:induction false} TfCounts(tokens: seq<string>)
    ensures forall k | k in Tf(tokens).counts :: Tf(tokens).counts[k] == Occurrences(tokens, k)
  {
    if tokens != [] {
      var p := tokens[..|tokens| - 1];
      TfCounts(p);
      TfKeys(p);
      assert tokens == p + [tokens[|tokens| - 1]];
      TfCountsStep(p, tokens[|tokens| - 1]);
    }
  }

  /** The keys of the term-frequency map are the distinct tokens in order of first occurrence,
      and each count is that token's number of occurrences. */
  lemma TfSpec(tokens: seq<string>)
    ensures Tf(tokens).Valid()
    ensures Tf(tokens).keys == Dedup(tokens)
    ensures forall k :: k in Tf(tokens).counts <==> k in tokens
    ensures forall k | k in Tf(tokens).counts :: Tf(tokens).counts[k] == Occurrences(tokens, k)
  {
    TfValid(tokens);
    TfKeys(tokens);
    TfCounts(tokens);
  }

  /** The counts of the term-frequency map add up to the number of tokens. */
  lemma {:induction false} TfTotal(tokens: seq<string>)
    ensures Total(Tf(tokens).keys, Tf(tokens).counts) == |tokens|
  {
    if tokens != [] {
      var p := tokens[..|tokens| - 1];
      TfTotal(p);
      TfValid(p);
      AddTotal(Tf(p), tokens[|tokens| - 1]);
    }
  }

  /** `toTf`: one pass over the tokens, counting each. */
  method ToTf(tokens: seq<string>) returns (m: TokenMap)
    ensures m == Tf(tokens)
    ensures m.Valid() && m.keys == Dedup(tokens)
    ensures forall k :: k in m.counts <==> k in tokens
    ensures forall k | k in m.counts :: m.counts[k] == Occurrences(tokens, k)
  {
    m := TokenMap([], map[]);
    for i := 0 to |tokens|
      invariant m == Tf(tokens[..i])
    {
      var tok := tokens[i];
      var n := if tok in m.counts then m.counts[tok] else 0;
      if tok in m.counts {
        m := m.(counts := m.counts[tok := n + 1]);
      } else {
        m := TokenMap(m.keys + [tok], m.counts[tok := n + 1]);
      }
      assert tokens[..i + 1][..i] == tokens[..i];
    }
    assert tokens[..|tokens|] == tokens;
    TfSpec(tokens);
  }
}
