/** The brand keyword matcher that decides which fetched items are ingested as mentions
    (lib/match/keywords.ts). */
module Keywords {
  import opened Seqs
  import opened Text

  /** `normalizeText`: lower-cased, every whitespace run collapsed to one space, trimmed. */
  function NormalizeText(s: string): string {
    Trim(Collapse(Lower(s)))
  }

  /** The shape of a normalised text: no upper-case letter, no whitespace at either end,
      no whitespace other than single spaces, and the same non-whitespace characters as the
      lower-cased input. */
  lemma NormalizeTextSpec(s: string)
    ensures forall i | 0 <= i < |NormalizeText(s)| :: !IsUpper(NormalizeText(s)[i])
    ensures NormalizeText(s) == [] || (!IsSpace(NormalizeText(s)[0]) && !IsSpace(NormalizeText(s)[|NormalizeText(s)| - 1]))
    ensures SingleSpaced(NormalizeText(s))
    ensures NonSpaces(NormalizeText(s)) == NonSpaces(Lower(s))
  {
    NormalizeTextLower(s);
    NormalizeTextSingleSpaced(s);
    NormalizeTextContent(s);
  }

  lemma NormalizeTextLower(s: string)
    ensures forall i | 0 <= i < |NormalizeText(s)| :: !IsUpper(NormalizeText(s)[i])
  {
    var l := Lower(s);
    var c := Collapse(l);
    CollapseChars(l);
    TrimSingleSpaced(c);
    var r := Trim(c);
    forall i | 0 <= i < |r| ensures !IsUpper(r[i]) {
      var j :| 0 <= j < |c| && c[j] == r[i];
      assert c[j] in l || c[j] == ' ';
    }
  }

  lemma NormalizeTextSingleSpaced(s: string)
    ensures SingleSpaced(NormalizeText(s))
  {
    CollapseSingleSpaced(Lower(s));
    TrimSingleSpaced(Collapse(Lower(s)));
  }

  lemma NormalizeTextContent(s: string)
    ensures NonSpaces(NormalizeText(s)) == NonSpaces(Lower(s))
  {
    CollapseNonSpaces(Lower(s));
    TrimNonSpaces(Collapse(Lower(s)));
  }

  /** Normalising twice is normalising once. */
  lemma NormalizeTextIdempotent(s: string)
    ensures NormalizeText(NormalizeText(s)) == NormalizeText(s)
  {
    var t := NormalizeText(s);
    NormalizeTextSpec(s);
    assert Lower(t) == t;
    CollapseSingleSpacedIdentity(t);
    TrimTrimmed(t);
  }

  /** The names that survive `.map((x) => x.trim()).filter((x) => x.length >= 2)`, trimmed. */
  function Candidates(names: seq<string>): (r: seq<string>)
    ensures forall i | 0 <= i < |r| :: |r[i]| >= 2
  {
    if names == [] then []
    else if |Trim(names[0])| >= 2 then [Trim(names[0])] + Candidates(names[1..])
    else Candidates(names[1..])
  }

  /** Every candidate is the trimmed form of a name, and every name whose trimmed form is
      long enough is a candidate. */
  lemma {:induction false} CandidatesMembers(names: seq<string>)
    ensures forall c | c in Candidates(names) :: exists x :: x in names && c == Trim(x)
    ensures forall x | x in names && |Trim(x)| >= 2 :: Trim(x) in Candidates(names)
  {
    if names != [] {
      var rest := names[1..];
      CandidatesMembers(rest);
      forall c | c in Candidates(names) ensures exists x :: x in names && c == Trim(x) {
        if c in Candidates(rest) {
          var x :| x in rest && c == Trim(x);
          assert x in names;
        } else {
          assert names[0] in names;
        }
      }
      forall x | x in names && |Trim(x)| >= 2 ensures Trim(x) in Candidates(names) {
        if x != names[0] {
          assert x in rest;
        }
      }
    }
  }

  function NormalizeAll(xs: seq<string>): (r: seq<string>)
    ensures |r| == |xs|
    ensures forall i | 0 <= i < |xs| :: r[i] == NormalizeText(xs[i])
  {
    seq(|xs|, i requires 0 <= i < |xs| => NormalizeText(xs[i]))
  }

  /** The brand name, then the aliases, then the competitors, in that order. */
  function Names(brandName: string, aliases: seq<string>, competitors: seq<string>): seq<string> {
    [brandName] + aliases + competitors
  }

  /** The keyword list `buildKeywordList` returns, as a specification. */
  function KeywordList(brandName: string, aliases: seq<string>, competitors: seq<string>): seq<string> {
    Dedup(NormalizeAll(Candidates(Names(brandName, aliases, competitors))))
  }

  /** A name whose trimmed form has at least two characters normalises to a keyword of at
      least two characters: its first and last characters are not whitespace. */
  lemma KeywordLength(x: string)
    requires |Trim(x)| >= 2
    ensures |NormalizeText(Trim(x))| >= 2
  {
    var t := Trim(x);
    assert t == [t[0]] + t[1..];
    assert t[1..] == t[1..|t| - 1] + [t[|t| - 1]];
    NonSpacesAppend([t[0]], t[1..]);
    NonSpacesAppend(t[1..|t| - 1], [t[|t| - 1]]);
    assert |NonSpaces(t[1..])| >= 1;
    assert |NonSpaces(t)| >= 2;
    NonSpacesLower(t);
    NormalizeTextSpec(t);
    assert |NonSpaces(NormalizeText(t))| >= 2;
  }

  /** Lower-casing changes no character's whitespace class, so it keeps the number of
      non-whitespace characters. */
  lemma {:induction false} NonSpacesLower(s: string)
    ensures |NonSpaces(Lower(s))| == |NonSpaces(s)|
  {
    if s != [] {
      NonSpacesLower(s[1..]);
      assert Lower(s)[1..] == Lower(s[1..]);
    }
  }

  /** The keyword list has no repetition, no keyword shorter than two characters, only
      normalised usable names, every normalised usable name, and keeps the order in which the
      names first produce each keyword. */
  lemma KeywordListProperties(brandName: string, aliases: seq<string>, competitors: seq<string>)
    ensures Distinct(KeywordList(brandName, aliases, competitors))
    ensures forall k | k in KeywordList(brandName, aliases, competitors) :: |k| >= 2
    ensures forall k | k in KeywordList(brandName, aliases, competitors) ::
      exists x :: x in Names(brandName, aliases, competitors) && |Trim(x)| >= 2 && k == NormalizeText(Trim(x))
    ensures forall x | x in Names(brandName, aliases, competitors) && |Trim(x)| >= 2 ::
      NormalizeText(Trim(x)) in KeywordList(brandName, aliases, competitors)
    ensures forall i, j | 0 <= i < j < |KeywordList(brandName, aliases, competitors)| ::
      var order := NormalizeAll(Candidates(Names(brandName, aliases, competitors)));
      var out := KeywordList(brandName, aliases, competitors);
      out[i] in order && out[j] in order && FirstIndex(order, out[i]) < FirstIndex(order, out[j])
  {
    var names := Names(brandName, aliases, competitors);
    var raw := Candidates(names);
    var order := NormalizeAll(raw);
    var out := KeywordList(brandName, aliases, competitors);
    DedupFirstOccurrenceOrder(order);
    CandidatesMembers(names);
    DedupMembers(order);
    forall k | k in out
      ensures |k| >= 2
      ensures exists x :: x in names && |Trim(x)| >= 2 && k == NormalizeText(Trim(x))
    {
      var j :| 0 <= j < |order| && order[j] == k;
      assert raw[j] in raw;
      var x :| x in names && raw[j] == Trim(x);
      KeywordLength(x);
    }
    forall x | x in names && |Trim(x)| >= 2 ensures NormalizeText(Trim(x)) in out {
      var j :| 0 <= j < |raw| && raw[j] == Trim(x);
      assert order[j] == NormalizeText(Trim(x));
      assert order[j] in order;
    }
  }

  /** `buildKeywordList`: the loop with a `seen` set computes the keyword list. */
  method BuildKeywordList(brandName: string, aliases: seq<string>, competitors: seq<string>)
    returns (out: seq<string>)
    ensures out == KeywordList(brandName, aliases, competitors)
    ensures Distinct(out)
  {
    var names := Names(brandName, aliases, competitors);
    var raw := Candidates(names);
    ghost var order := NormalizeAll(raw);
    var seen: set<string> := {};
    out := [];
    for i := 0 to |raw|
      invariant out == Dedup(order[..i])
      invariant forall k :: k in seen <==> k in out
    {
      var nk := NormalizeText(raw[i]);
      DedupPrefix(order, i);
      if nk !in seen {
        seen := seen + {nk};
        out := out + [nk];
      }
    }
    assert order[..|raw|] == order;
  }

  /** `matchesAnyKeyword`: some keyword occurs in the normalised text. */
  function MatchesAnyKeyword(text: string, normalizedKeywords: seq<string>): (r: bool)
    ensures r <==> exists k :: k in normalizedKeywords && Contains(NormalizeText(text), k)
    ensures normalizedKeywords == [] ==> !r
  {
    AnyContainedSome(NormalizeText(text), normalizedKeywords);
    AnyContained(NormalizeText(text), normalizedKeywords)
  }

  /** The ingestion gate: an item passes the brand's keyword list exactly when the normalised
      form of one of its usable names occurs in the normalised item text. */
  lemma {:induction false} GateMatchesSomeName(text: string, brandName: string, aliases: seq<string>, competitors: seq<string>)
    ensures MatchesAnyKeyword(text, KeywordList(brandName, aliases, competitors)) <==>
      exists x :: x in Names(brandName, aliases, competitors) && |Trim(x)| >= 2 &&
        Contains(NormalizeText(text), NormalizeText(Trim(x)))
  {
    var names := Names(brandName, aliases, competitors);
    var raw := Candidates(names);
    var order := NormalizeAll(raw);
    var kws := KeywordList(brandName, aliases, competitors);
    var t := NormalizeText(text);
    CandidatesMembers(names);
    DedupMembers(order);
    if MatchesAnyKeyword(text, kws) {
      var k :| k in kws && Contains(t, k);
      var j :| 0 <= j < |order| && order[j] == k;
      assert raw[j] in raw;
      var x :| x in names && raw[j] == Trim(x);
      assert |Trim(x)| >= 2;
    }
    if exists x :: x in names && |Trim(x)| >= 2 && Contains(t, NormalizeText(Trim(x))) {
      var x :| x in names && |Trim(x)| >= 2 && Contains(t, NormalizeText(Trim(x)));
      var j :| 0 <= j < |raw| && raw[j] == Trim(x);
      assert order[j] == NormalizeText(Trim(x));
      assert order[j] in order;
      assert order[j] in kws;
    }
  }
}
