/** Character classes and whitespace handling shared by the three normalisers of the core.
    Characters are ASCII: lower-casing touches only `A`-`Z`, and whitespace is the ASCII
    part of the JavaScript `\s` class (space, tab, line feed, vertical tab, form feed,
    carriage return). */
module Text {

  predicate IsSpace(c: char) {
    c == ' ' || c == '\t' || c == '\n' || c == '\r' || c == 11 as char || c == 12 as char
  }

  predicate IsUpper(c: char) {
    'A' <= c <= 'Z'
  }

  /** `[a-z0-9]` */
  predicate IsLowerAlnum(c: char) {
    'a' <= c <= 'z' || '0' <= c <= '9'
  }

  function LowerChar(c: char): (r: char)
    ensures !IsUpper(r)
    ensures IsSpace(r) <==> IsSpace(c)
    ensures !IsUpper(c) ==> r == c
  {
    if IsUpper(c) then (c as int + 32) as char else c
  }

  /** `toLowerCase()` on ASCII text. */
  function Lower(s: string): (r: string)
    ensures |r| == |s|
    ensures forall i | 0 <= i < |s| :: r[i] == LowerChar(s[i])
  {
    seq(|s|, i requires 0 <= i < |s| => LowerChar(s[i]))
  }

  /** The non-whitespace characters of `s`, in order: what whitespace handling must never change. */
  function NonSpaces(s: string): (r: string)
    ensures |r| <= |s|
    ensures forall i | 0 <= i < |r| :: !IsSpace(r[i])
  {
    if s == [] then []
    else if IsSpace(s[0]) then NonSpaces(s[1..])
    else [s[0]] + NonSpaces(s[1..])
  }

  /** Number of whitespace characters at the start of `s`. */
  function LeadingSpaces(s: string): (k: nat)
    ensures k <= |s|
    ensures forall i | 0 <= i < k :: IsSpace(s[i])
    ensures k < |s| ==> !IsSpace(s[k])
  {
    if s != [] && IsSpace(s[0]) then 1 + LeadingSpaces(s[1..]) else 0
  }

  /** Length of `s` without its trailing whitespace. */
  function TrailingStart(s: string): (k: nat)
    ensures k <= |s|
    ensures forall i | k <= i < |s| :: IsSpace(s[i])
    ensures k > 0 ==> !IsSpace(s[k - 1])
  {
    if s != [] && IsSpace(s[|s| - 1]) then TrailingStart(s[..|s| - 1]) else |s|
  }

  /** Drops the leading whitespace (the left half of `trim()`). */
  function TrimStart(s: string): string {
    s[LeadingSpaces(s)..]
  }

  /** Drops the trailing whitespace (the right half of `trim()`). */
  function TrimEnd(s: string): string {
    s[..TrailingStart(s)]
  }

  lemma {:induction false} NonSpacesAppend(a: string, b: string)
    ensures NonSpaces(a + b) == NonSpaces(a) + NonSpaces(b)
  {
    if a == [] {
      assert a + b == b;
    } else {
      assert (a + b)[0] == a[0];
      assert (a + b)[1..] == a[1..] + b;
      NonSpacesAppend(a[1..], b);
    }
  }

  lemma {:induction false} NonSpacesOfSpaces(s: string)
    requires forall i | 0 <= i < |s| :: IsSpace(s[i])
    ensures NonSpaces(s) == []
  {
    if s != [] {
      NonSpacesOfSpaces(s[1..]);
    }
  }

  /** `trim()`: the slice of `s` between its leading and trailing whitespace. */
  function Trim(s: string): (r: string)
    ensures r == [] || (!IsSpace(r[0]) && !IsSpace(r[|r| - 1]))
    ensures |r| <= |s|
  {
    TrimEnd(TrimStart(s))
  }

  /** `Trim` returns the slice `s[k..k + |Trim(s)|]`, with only whitespace around it. */
  lemma TrimSlice(s: string) returns (k: nat)
    ensures k + |Trim(s)| <= |s| && Trim(s) == s[k..k + |Trim(s)|]
    ensures forall i | 0 <= i < k :: IsSpace(s[i])
    ensures forall i | k + |Trim(s)| <= i < |s| :: IsSpace(s[i])
  {
    var l := TrimStart(s);
    k := LeadingSpaces(s);
    assert forall i | 0 <= i < |l| :: l[i] == s[k + i];
  }

  /** `Trim` keeps the non-whitespace content. */
  lemma TrimNonSpaces(s: string)
    ensures NonSpaces(Trim(s)) == NonSpaces(s)
  {
    var r := Trim(s);
    var k := TrimSlice(s);
    var e := k + |r|;
    assert s == s[..k] + (r + s[e..]);
    NonSpacesOfSpaces(s[..k]);
    NonSpacesOfSpaces(s[e..]);
    NonSpacesAppend(s[..k], r + s[e..]);
    NonSpacesAppend(r, s[e..]);
  }

  /** `Trim` keeps single spacing and introduces no character. */
  lemma TrimSingleSpaced(s: string)
    ensures SingleSpaced(s) ==> SingleSpaced(Trim(s))
    ensures forall i | 0 <= i < |Trim(s)| :: Trim(s)[i] in s
  {
    var r := Trim(s);
    var k := TrimSlice(s);
    SingleSpacedSlice(s, k, k + |r|);
    forall i | 0 <= i < |r| ensures r[i] in s {
      assert r[i] == s[k + i];
    }
  }

  /** `Trim` leaves a string without surrounding whitespace alone. */
  lemma TrimTrimmed(s: string)
    requires s == [] || (!IsSpace(s[0]) && !IsSpace(s[|s| - 1]))
    ensures Trim(s) == s
  {
  }

  /** Every whitespace character is a plain space and no two of them are adjacent:
      the shape `replace(/\s+/g, " ")` leaves behind. */
  predicate SingleSpaced(s: string) {
    && (forall i | 0 <= i < |s| :: IsSpace(s[i]) ==> s[i] == ' ')
    && (forall i | 0 <= i < |s| - 1 :: !(IsSpace(s[i]) && IsSpace(s[i + 1])))
  }

  /** `replace(/\s+/g, " ")`: every maximal run of whitespace becomes one space. */
  function Collapse(s: string): (r: string)
    ensures r == [] <==> s == []
    ensures r != [] ==> (IsSpace(r[0]) <==> IsSpace(s[0]))
    decreases |s|
  {
    if s == [] then []
    else if IsSpace(s[0]) then [' '] + Collapse(s[LeadingSpaces(s)..])
    else [s[0]] + Collapse(s[1..])
  }

  lemma ConsSingleSpaced(c: char, t: string)
    requires SingleSpaced(t)
    requires IsSpace(c) ==> c == ' ' && (t == [] || !IsSpace(t[0]))
    ensures SingleSpaced([c] + t)
  {
    var r := [c] + t;
    assert forall i | 1 <= i < |r| :: r[i] == t[i - 1];
  }

  /** `Collapse` leaves no whitespace other than single spaces. */
  lemma {:induction false} CollapseSingleSpaced(s: string)
    ensures SingleSpaced(Collapse(s))
    decreases |s|
  {
    if s != [] {
      if IsSpace(s[0]) {
        CollapseSingleSpaced(TrimStart(s));
        ConsSingleSpaced(' ', Collapse(TrimStart(s)));
      } else {
        CollapseSingleSpaced(s[1..]);
        ConsSingleSpaced(s[0], Collapse(s[1..]));
      }
    }
  }

  /** `Collapse` only touches whitespace: the non-whitespace content is unchanged. */
  lemma {:induction false} CollapseNonSpaces(s: string)
    ensures NonSpaces(Collapse(s)) == NonSpaces(s)
    decreases |s|
  {
    if s != [] {
      var r := Collapse(s);
      if IsSpace(s[0]) {
        var rest := TrimStart(s);
        CollapseNonSpaces(rest);
        var k := |s| - |rest|;
        assert s == s[..k] + rest;
        NonSpacesOfSpaces(s[..k]);
        NonSpacesAppend(s[..k], rest);
        assert r == [' '] + Collapse(rest);
        assert r[1..] == Collapse(rest);
      } else {
        CollapseNonSpaces(s[1..]);
        assert r == [s[0]] + Collapse(s[1..]);
        assert r[1..] == Collapse(s[1..]);
      }
    }
  }

  /** `Collapse` introduces no character except the space. */
  lemma {:induction false} CollapseChars(s: string)
    ensures forall i | 0 <= i < |Collapse(s)| :: Collapse(s)[i] in s || Collapse(s)[i] == ' '
    decreases |s|
  {
    if s != [] {
      if IsSpace(s[0]) {
        var rest := s[LeadingSpaces(s)..];
        CollapseChars(rest);
        ConsChars(' ', Collapse(rest), rest, s);
      } else {
        CollapseChars(s[1..]);
        ConsChars(s[0], Collapse(s[1..]), s[1..], s);
      }
    }
  }

  lemma ConsChars(c: char, t: string, u: string, s: string)
    requires c in s || c == ' '
    requires forall i | 0 <= i < |t| :: t[i] in u || t[i] == ' '
    requires forall x | x in u :: x in s
    ensures forall i | 0 <= i < |[c] + t| :: ([c] + t)[i] in s || ([c] + t)[i] == ' '
  {
    assert forall i | 1 <= i < |[c] + t| :: ([c] + t)[i] == t[i - 1];
  }

  /** A single-spaced string is its own collapse. */
  lemma {:induction false} CollapseSingleSpacedIdentity(s: string)
    requires SingleSpaced(s)
    ensures Collapse(s) == s
    decreases |s|
  {
    if s != [] {
      SingleSpacedSlice(s, 1, |s|);
      CollapseSingleSpacedIdentity(s[1..]);
      if IsSpace(s[0]) {
        assert TrimStart(s) == s[1..];
      }
    }
  }

  /** A slice of a single-spaced string is single-spaced. */
  lemma SingleSpacedSlice(s: string, a: nat, b: nat)
    requires a <= b <= |s|
    ensures SingleSpaced(s) ==> SingleSpaced(s[a..b])
  {
    var t := s[a..b];
    assert forall i | 0 <= i < |t| :: t[i] == s[a + i];
  }

  /** `s` contains `pat` starting at index `i`. */
  predicate OccursAt(text: string, pat: string, i: int) {
    0 <= i && i + |pat| <= |text| && text[i..i + |pat|] == pat
  }

  /** `text.includes(pat)` */
  predicate Contains(text: string, pat: string) {
    exists i | 0 <= i <= |text| - |pat| :: OccursAt(text, pat, i)
  }

  /** `words.some((k) => text.includes(k))` */
  predicate AnyContained(text: string, words: seq<string>) {
    if words == [] then false
    else Contains(text, words[0]) || AnyContained(text, words[1..])
  }

  /** One word that occurs is enough. */
  lemma {:induction false} AnyContainedAt(text: string, words: seq<string>, k: nat)
    requires k < |words| && Contains(text, words[k])
    ensures AnyContained(text, words)
  {
    if k > 0 {
      AnyContainedAt(text, words[1..], k - 1);
    }
  }

  /** `AnyContained` holds exactly when some word occurs in the text. */
  lemma {:induction false} AnyContainedSome(text: string, words: seq<string>)
    ensures AnyContained(text, words) <==> exists k :: k in words && Contains(text, k)
  {
    if words != [] {
      AnyContainedSome(text, words[1..]);
      assert forall k | k in words :: k == words[0] || k in words[1..];
    }
  }
}
