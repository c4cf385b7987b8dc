/** The risk engine (lib/risk/engine.ts): six sub-scores of an issue's mentions, their
    weighted risk score, two escalation percentages and the recommendation decision table.
    Numbers are exact reals; `Math.round(x)` is `Floor(x + 1/2)`. `Math.exp` and URL
    hostname parsing are parameters. */
module Risk {
  import opened Seqs
  import opened Text
  import opened Keywords
  import opened Mentions
  import Clustering

  // ---------------------------------------------------------------- weights and lexicons

  datatype Category = Safety | Legal | Fraud | Ethics | Pricing | Support | Other

  /** `SEVERITY_WEIGHTS` */
  function SeverityWeight(c: Category): (w: real)
    ensures c == Safety ==> w == 1.0
    ensures c == Legal || c == Fraud ==> w == 0.9
    ensures c == Ethics ==> w == 0.85
    ensures c == Pricing ==> w == 0.6
    ensures c == Support ==> w == 0.55
    ensures c == Other ==> w == 0.4
    ensures 0.4 <= w <= 1.0
    ensures w == 1.0 <==> c == Safety
    ensures w >= 0.9 <==> c in {Safety, Legal, Fraud}
    ensures w >= 0.85 <==> c in {Safety, Legal, Fraud, Ethics}
  {
    match c
    case Safety => 1.0
    case Legal => 0.9
    case Fraud => 0.9
    case Ethics => 0.85
    case Pricing => 0.6
    case Support => 0.55
    case Other => 0.4
  }

  /** `SOURCE_WEIGHTS[sourceType] ?? 0.5` */
  function SourceWeight(t: SourceType): (w: real)
    ensures t == Rss ==> w == 0.9
    ensures t == Reddit ==> w == 0.6
    ensures t.OtherSource? ==> w == 0.5
    ensures 0.5 <= w <= 0.9
  {
    match t
    case Rss => 0.9
    case Reddit => 0.6
    case OtherSource(_) => 0.5
  }

  const NEGATIVE_WORDS: seq<string> := [
    "scam", "fraud", "unsafe", "danger", "dangerous", "fire", "overheating", "explode", "lawsuit", "illegal",
    "boycott", "hate", "terrible", "awful", "broken", "defect", "recall", "misleading", "fake", "refund",
    "complaint", "angry", "worst", "ripoff", "chargeback", "stolen", "criminal", "shock", "outrage"]

  const SAFETY_WORDS: seq<string> := [
    "unsafe", "danger", "dangerous", "fire", "overheat", "overheating", "explode", "explosion", "injury",
    "injured", "death", "fatal", "recall", "smoke", "burning"]
  const LEGAL_WORDS: seq<string> := [
    "lawsuit", "legal", "court", "illegal", "regulator", "regulatory", "compliance", "ban", "fine", "penalty",
    "investigation"]
  const FRAUD_WORDS: seq<string> := [
    "scam", "fraud", "fake", "counterfeit", "stolen", "phishing", "chargeback", "ripoff"]
  const ETHICS_WORDS: seq<string> := [
    "racist", "sexist", "harassment", "abuse", "discrimination", "unethical", "privacy", "data leak", "breach"]
  const PRICING_WORDS: seq<string> := [
    "price", "pricing", "fees", "hidden fee", "overpriced", "markup", "dealer markup", "bait", "switch"]
  const SUPPORT_WORDS: seq<string> := [
    "support", "service", "customer service", "ignored", "no response", "waiting", "delay", "rude", "refund"]

  /** The lexicon of each category; OTHER is what is left when none matches. */
  function Lexicon(c: Category): seq<string> {
    match c
    case Safety => SAFETY_WORDS
    case Legal => LEGAL_WORDS
    case Fraud => FRAUD_WORDS
    case Ethics => ETHICS_WORDS
    case Pricing => PRICING_WORDS
    case Support => SUPPORT_WORDS
    case Other => []
  }

  /** The order in which `classifySeverity` tries the lexicons. */
  function Rank(c: Category): nat {
    match c
    case Safety => 0
    case Legal => 1
    case Fraud => 2
    case Ethics => 3
    case Pricing => 4
    case Support => 5
    case Other => 6
  }

  // ---------------------------------------------------------------- clamp and round

  function Max(a: real, b: real): real {
    if a >= b then a else b
  }

  function Min(a: real, b: real): real {
    if a <= b then a else b
  }

  /** `clamp(n, min, max)`: `Math.max(min, Math.min(max, n))`. */
  function Clamp(n: real, lo: real, hi: real): (r: real)
    ensures lo <= hi ==> lo <= r <= hi
    ensures lo <= n <= hi ==> r == n
    ensures lo <= hi && n < lo ==> r == lo
    ensures lo <= hi && hi < n ==> r == hi
    ensures hi < lo ==> r == lo
  {
    Max(lo, Min(hi, n))
  }

  /** Clamping is monotone in the clamped value. */
  lemma ClampMonotone(x: real, y: real, lo: real, hi: real)
    requires x <= y
    ensures Clamp(x, lo, hi) <= Clamp(y, lo, hi)
  {
  }

  /** `Math.round(x)`: the nearest integer, halves rounded up. */
  function Round(x: real): (r: int)
    ensures r as real - 0.5 <= x < r as real + 0.5
  {
    (x + 0.5).Floor
  }

  lemma RoundMonotone(x: real, y: real)
    requires x <= y
    ensures Round(x) <= Round(y)
  {
  }

  /** A real that is a whole number. */
  predicate Whole(x: real) {
    x == x.Floor as real
  }

  /** `round0to100(x)`: rounded, then clamped to [0, 100]; a value already in range only moves
      to its nearest whole number. */
  function Round0To100(x: real): (r: real)
    ensures 0.0 <= r <= 100.0 && Whole(r)
    ensures 0.0 <= x <= 100.0 ==> r - 0.5 <= x < r + 0.5
    ensures x < 0.0 ==> r == 0.0
    ensures x >= 100.0 ==> r == 100.0
  {
    Clamp(Round(x) as real, 0.0, 100.0)
  }

  lemma Round0To100Monotone(x: real, y: real)
    requires x <= y
    ensures Round0To100(x) <= Round0To100(y)
  {
    RoundMonotone(x, y);
    ClampMonotone(Round(x) as real, Round(y) as real, 0.0, 100.0);
  }

  /** A whole number in [0, 100] is left unchanged. */
  lemma Round0To100Whole(x: real)
    requires 0.0 <= x <= 100.0 && Whole(x)
    ensures Round0To100(x) == x
  {
  }

  // ---------------------------------------------------------------- classification

  /** The checks of `classifySeverity` on its normalised text `t`, in priority order. */
  function Classify(t: string): Category {
    if Matches(t, Safety) then Safety
    else if Matches(t, Legal) then Legal
    else if Matches(t, Fraud) then Fraud
    else if Matches(t, Ethics) then Ethics
    else if Matches(t, Pricing) then Pricing
    else if Matches(t, Support) then Support
    else Other
  }

  /** `has(lexicon)`: some entry of the category's lexicon occurs in `t`. */
  predicate Matches(t: string, c: Category) {
    AnyContained(t, Lexicon(c))
  }

  /** The category `Classify` picks has a matching lexicon entry, and no category tried before it
      has one; OTHER comes out exactly when no lexicon matches. */
  lemma ClassifyPriority(t: string)
    ensures Classify(t) != Other ==> Matches(t, Classify(t))
    ensures forall d | Rank(d) < Rank(Classify(t)) :: !Matches(t, d)
    ensures Classify(t) == Other <==> forall d :: !Matches(t, d)
  {
    var c := Classify(t);
    forall d | Rank(d) < Rank(c) || c == Other
      ensures !Matches(t, d)
    {
      match d
      case Safety =>
      case Legal =>
      case Fraud =>
      case Ethics =>
      case Pricing =>
      case Support =>
      case Other => assert Lexicon(Other) == [];
    }
  }

  /** `classifySeverity` */
  function ClassifySeverity(text: string): Category {
    Classify(NormalizeText(text))
  }

  /** A text mentioning both a fire and a lawsuit is a safety issue: the safety lexicon is
      tried first, although the legal lexicon matches too. */
  lemma FireAndLawsuitIsSafety()
    ensures AnyContained("fire and lawsuit", LEGAL_WORDS)
    ensures Classify("fire and lawsuit") == Safety
  {
    var t := "fire and lawsuit";
    assert OccursAt(t, SAFETY_WORDS[3], 0);
    assert OccursAt(t, LEGAL_WORDS[0], 9);
    AnyContainedAt(t, SAFETY_WORDS, 3);
    AnyContainedAt(t, LEGAL_WORDS, 0);
  }

  // ---------------------------------------------------------------- negative intensity

  /** The number of `words` occurring in `t`, counted in list order. */
  function Hits(t: string, words: seq<string>): (n: nat)
    ensures n <= |words|
  {
    if words == [] then 0
    else Hits(t, words[..|words| - 1]) + (if Contains(t, words[|words| - 1]) then 1 else 0)
  }

  /** No hit exactly when no word occurs. */
  lemma {:induction false} HitsZero(t: string, words: seq<string>)
    ensures Hits(t, words) == 0 <==> forall w | w in words :: !Contains(t, w)
  {
    if words != [] {
      var p := words[..|words| - 1];
      HitsZero(t, p);
      assert forall w | w in words :: w in p || w == words[|words| - 1];
    }
  }

  /** `negativeIntensity`: twelve points per negative word present, capped at 100. */
  function Negativity(text: string): (r: real)
    ensures var h := Hits(NormalizeText(text), NEGATIVE_WORDS);
            r == (if 12 * h < 100 then 12 * h else 100) as real
    ensures 0.0 <= r <= 100.0 && Whole(r)
  {
    Clamp((12 * Hits(NormalizeText(text), NEGATIVE_WORDS)) as real, 0.0, 100.0)
  }

  /** `negativeIntensity`: counts the negative words in the normalised text. */
  method NegativeIntensity(text: string) returns (r: real)
    ensures r == Negativity(text)
  {
    var t := NormalizeText(text);
    var hits := CountHits(t, NEGATIVE_WORDS);
    r := Clamp((hits * 12) as real, 0.0, 100.0);
  }

  /** The `hits` loop of `negativeIntensity`: one more hit per word the text contains. */
  method CountHits(t: string, words: seq<string>) returns (hits: nat)
    ensures hits == Hits(t, words)
  {
    hits := 0;
    for i := 0 to |words|
      invariant hits == Hits(t, words[..i])
    {
      assert words[..i + 1][..i] == words[..i];
      if Contains(t, words[i]) {
        hits := hits + 1;
      }
    }
    assert words[..|words|] == words;
  }

  // ---------------------------------------------------------------- velocity

  /** `mentions.filter((m) => m.createdAt >= cutoff).length` */
  function CreatedSince(ms: seq<Mention>, cutoff: int): (n: nat)
    ensures n <= |ms|
  {
    if ms == [] then 0
    else (if ms[0].createdAt >= cutoff then 1 else 0) + CreatedSince(ms[1..], cutoff)
  }

  /** The count is zero exactly when every mention is older than the cutoff. */
  lemma {:induction false} CreatedSinceZero(ms: seq<Mention>, cutoff: int)
    ensures CreatedSince(ms, cutoff) == 0 <==> forall i | 0 <= i < |ms| :: ms[i].createdAt < cutoff
  {
    if ms != [] {
      CreatedSinceZero(ms[1..], cutoff);
      assert forall i | 1 <= i < |ms| :: ms[i] == ms[1..][i - 1];
    }
  }

  /** A later cutoff counts no more mentions. */
  lemma {:induction false} CreatedSinceMonotone(ms: seq<Mention>, later: int, earlier: int)
    requires earlier <= later
    ensures CreatedSince(ms, later) <= CreatedSince(ms, earlier)
  {
    if ms != [] {
      CreatedSinceMonotone(ms[1..], later, earlier);
    }
  }

  datatype Windows = Windows(last1h: nat, last6h: nat, last24h: nat)

  /** The mention counts of the last hour, six hours and day before `now`. */
  function WindowCounts(ms: seq<Mention>, now: int): (w: Windows)
    ensures w.last1h <= w.last6h <= w.last24h <= |ms|
  {
    CreatedSinceMonotone(ms, now - Clustering.HOUR_MS, now - 6 * Clustering.HOUR_MS);
    CreatedSinceMonotone(ms, now - 6 * Clustering.HOUR_MS, now - Clustering.DAY_MS);
    Windows(
      CreatedSince(ms, now - Clustering.HOUR_MS),
      CreatedSince(ms, now - 6 * Clustering.HOUR_MS),
      CreatedSince(ms, now - Clustering.DAY_MS))
  }

  /** `prior5h`: the mentions of the five hours before the last one. */
  function Prior5h(w: Windows): (n: nat)
    ensures w.last1h <= w.last6h ==> w.last1h + n == w.last6h
  {
    if w.last6h - w.last1h >= 0 then w.last6h - w.last1h else 0
  }

  /** `velocityScore`: the last hour's count against the hourly rate of the five hours
      before, scaled by 22 and capped at 100. */
  function VelocityScore(w: Windows): (r: real)
    ensures 0.0 <= r <= 100.0 && Whole(r)
    ensures w.last1h == 0 ==> r == 0.0
  {
    var velocityRaw := w.last1h as real / Max(1.0, Prior5h(w) as real / 5.0);
    Round0To100(Clamp(velocityRaw * 22.0, 0.0, 100.0))
  }

  /** With at most five mentions in the five hours before, the baseline is one an hour and
      each mention of the last hour adds 22 points, up to 100. */
  lemma VelocityWithoutBacklog(w: Windows)
    requires Prior5h(w) <= 5
    ensures VelocityScore(w) == (if 22 * w.last1h < 100 then 22 * w.last1h else 100) as real
  {
    assert Max(1.0, Prior5h(w) as real / 5.0) == 1.0;
    var v := (if 22 * w.last1h < 100 then 22 * w.last1h else 100) as real;
    assert Clamp(w.last1h as real * 22.0, 0.0, 100.0) == v;
    Round0To100Whole(v);
  }

  // ---------------------------------------------------------------- authority

  /** The sum of the mentions' source weights, each defaulting to 0.5 for a source type without a
      weight of its own. */
  function WeightSum(ms: seq<Mention>): (s: real)
    ensures 0.5 * |ms| as real <= s <= 0.9 * |ms| as real
  {
    if ms == [] then 0.0 else WeightSum(ms[..|ms| - 1]) + SourceWeight(ms[|ms| - 1].sourceType)
  }

  lemma AverageBounds(s: real, n: real, lo: real, hi: real)
    requires n >= 1.0 && lo * n <= s <= hi * n
    ensures lo <= s / n <= hi
  {
  }

  /** `authorityScore`: the average source weight as a percentage. */
  function AuthorityScore(ms: seq<Mention>): real {
    var authorityAvg := WeightSum(ms) / Max(1.0, |ms| as real);
    Round0To100(authorityAvg * 100.0)
  }

  /** The authority score of a non-empty issue lies between 50, the weight of an unknown
      source, and 90, that of RSS. */
  lemma AuthorityBounds(ms: seq<Mention>)
    requires ms != []
    ensures 50.0 <= AuthorityScore(ms) <= 90.0
  {
    var authorityAvg := WeightSum(ms) / Max(1.0, |ms| as real);
    AverageBounds(WeightSum(ms), |ms| as real, 0.5, 0.9);
    Round0To100Monotone(50.0, authorityAvg * 100.0);
    Round0To100Monotone(authorityAvg * 100.0, 90.0);
    Round0To100Whole(50.0);
    Round0To100Whole(90.0);
  }

  // ---------------------------------------------------------------- severity

  /** `mentions.map((m) => classifySeverity(m.text))` */
  function Categories(ms: seq<Mention>): seq<Category> {
    Map(MentionCategory, ms)
  }

  function MentionCategory(m: Mention): Category {
    ClassifySeverity(m.text)
  }

  /** `maxSeverityWeight`: the largest weight of the categories seen, never below 0.4. */
  function MaxWeight(cats: seq<Category>): (w: real)
    ensures 0.4 <= w <= 1.0
  {
    if cats == [] then 0.4
    else Max(MaxWeight(cats[..|cats| - 1]), SeverityWeight(cats[|cats| - 1]))
  }

  /** The maximum weight bounds every category's weight and is 0.4 or one of them. */
  lemma {:induction false} MaxWeightSpec(cats: seq<Category>)
    ensures forall i | 0 <= i < |cats| :: SeverityWeight(cats[i]) <= MaxWeight(cats)
    ensures MaxWeight(cats) == 0.4 || exists i | 0 <= i < |cats| :: MaxWeight(cats) == SeverityWeight(cats[i])
  {
    if cats != [] {
      var p := cats[..|cats| - 1];
      MaxWeightSpec(p);
      assert forall i | 0 <= i < |p| :: cats[i] == p[i];
    }
  }

  /** `severityScore` */
  function SeverityScore(cats: seq<Category>): (r: real)
    ensures 40.0 <= r <= 100.0 && Whole(r)
  {
    Round0To100Monotone(40.0, MaxWeight(cats) * 100.0);
    Round0To100Whole(40.0);
    Round0To100(MaxWeight(cats) * 100.0)
  }

  /** The severity score is 100 exactly when a mention is about safety, at least 90 exactly
      when one is about safety, law or fraud, and at least 85 (the pattern's severity test)
      exactly when one is about safety, law, fraud or ethics. */
  lemma SeverityScoreLevels(cats: seq<Category>)
    ensures SeverityScore(cats) == 100.0 <==> Safety in cats
    ensures SeverityScore(cats) >= 90.0 <==> exists i | 0 <= i < |cats| :: cats[i] in {Safety, Legal, Fraud}
    ensures SeverityScore(cats) >= 85.0 <==> exists i | 0 <= i < |cats| :: cats[i] in {Safety, Legal, Fraud, Ethics}
  {
    var w := MaxWeight(cats);
    MaxWeightSpec(cats);
    assert w == 0.4 || w == 0.55 || w == 0.6 || w == 0.85 || w == 0.9 || w == 1.0;
    Round0To100Whole(w * 100.0);
    if Safety in cats {
      var i :| 0 <= i < |cats| && cats[i] == Safety;
    }
  }

  // ---------------------------------------------------------------- spread

  function SourceTypes(ms: seq<Mention>): set<SourceType> {
    set m | m in ms :: m.sourceType
  }

  function SourceNames(ms: seq<Mention>): set<string> {
    set m | m in ms :: m.sourceName
  }

  function Urls(ms: seq<Mention>): set<string> {
    set m | m in ms :: m.url
  }

  /** `hostname.replace(/^www\./, "")`: one leading `www.` removed. */
  function StripWww(h: string): (r: string)
    ensures h == r || h == "www." + r
    ensures |h| >= 4 && h[..4] == "www." ==> r == h[4..]
    ensures !(|h| >= 4 && h[..4] == "www.") ==> r == h
  {
    if |h| >= 4 && h[..4] == "www." then h[4..] else h
  }

  /** The RSS domains set, as its loop builds it; `host` stands for `new URL(url).hostname`,
      `None` where the URL does not parse. */
  function RssDomains(ms: seq<Mention>, host: string -> Option<string>): set<string> {
    if ms == [] then {}
    else
      var m := ms[|ms| - 1];
      RssDomains(ms[..|ms| - 1], host) + (if m.sourceType == Rss && host(m.url).Some? then {StripWww(host(m.url).value)} else {})
  }

  /** The domains are exactly the stripped hosts of the RSS mentions whose URL parses. */
  lemma {:induction false} RssDomainsMembers(ms: seq<Mention>, host: string -> Option<string>, d: string)
    ensures d in RssDomains(ms, host) <==>
      exists i | 0 <= i < |ms| :: ms[i].sourceType == Rss && host(ms[i].url).Some? && d == StripWww(host(ms[i].url).value)
  {
    if ms != [] {
      var p := ms[..|ms| - 1];
      RssDomainsMembers(p, host, d);
      assert forall i | 0 <= i < |p| :: ms[i] == p[i];
    }
  }

  /** `spreadScore` from the distinct counts. */
  function Spread(types: nat, sources: nat, domains: nat, urls: nat): (r: real)
    ensures 0.0 <= r <= 100.0 && Whole(r)
    ensures types >= 1 && sources >= 1 && urls >= 1 ==> r >= 17.0
  {
    var spreadRaw := (types * 12 + sources * 5 + domains * 10) as real + Min(25.0, urls as real / 10.0);
    if types >= 1 && sources >= 1 && urls >= 1 then
      Round0To100Monotone(17.0, spreadRaw);
      Round0To100Whole(17.0);
      Round0To100(spreadRaw)
    else
      Round0To100(spreadRaw)
  }

  function SpreadScore(ms: seq<Mention>, host: string -> Option<string>): real {
    Spread(|SourceTypes(ms)|, |SourceNames(ms)|, |RssDomains(ms, host)|, |Urls(ms)|)
  }

  /** Any mention gives at least one source type, source and URL: at least 17 points. */
  lemma SpreadOfNonEmpty(ms: seq<Mention>, host: string -> Option<string>)
    requires ms != []
    ensures 17.0 <= SpreadScore(ms, host) <= 100.0
  {
    assert ms[0].sourceType in SourceTypes(ms);
    assert ms[0].sourceName in SourceNames(ms);
    assert ms[0].url in Urls(ms);
  }

  // ---------------------------------------------------------------- sentiment

  /** `Math.max(...xs, 0)` */
  function MaxWithZero(xs: seq<real>): (r: real)
    ensures r >= 0.0
  {
    if xs == [] then 0.0
    else Max(MaxWithZero(xs[..|xs| - 1]), xs[|xs| - 1])
  }

  /** The maximum bounds every element and is 0 or one of them. */
  lemma {:induction false} MaxWithZeroSpec(xs: seq<real>)
    ensures forall i | 0 <= i < |xs| :: xs[i] <= MaxWithZero(xs)
    ensures MaxWithZero(xs) == 0.0 || MaxWithZero(xs) in xs
  {
    if xs != [] {
      var p := xs[..|xs| - 1];
      MaxWithZeroSpec(p);
      assert forall i | 0 <= i < |p| :: xs[i] == p[i];
    }
  }

  /** `mentions.slice(0, 40).map((m) => negativeIntensity(m.text))` */
  function RecentIntensities(ms: seq<Mention>): (xs: seq<real>)
    ensures |xs| <= 40 && |xs| <= |ms|
    ensures |ms| >= 40 ==> |xs| == 40
    ensures |ms| <= 40 ==> |xs| == |ms|
    ensures forall i | 0 <= i < |xs| :: xs[i] == Negativity(ms[i].text)
  {
    var recent := ms[..if |ms| <= 40 then |ms| else 40];
    assert forall i | 0 <= i < |recent| :: Map(MentionNegativity, recent)[i] == Negativity(ms[i].text) by {
      forall i | 0 <= i < |recent| ensures Map(MentionNegativity, recent)[i] == Negativity(ms[i].text) {
        MapAt(MentionNegativity, recent, i);
      }
    }
    Map(MentionNegativity, recent)
  }

  function MentionNegativity(m: Mention): real {
    Negativity(m.text)
  }

  /** `sentimentScore` over the 40 newest mentions. */
  function SentimentScore(ms: seq<Mention>): (r: real)
    ensures 0.0 <= r <= 100.0
  {
    Round0To100(MaxWithZero(RecentIntensities(ms)))
  }

  /** The sentiment score is the strongest negativity among the 40 newest mentions, or 0. */
  lemma SentimentSpec(ms: seq<Mention>)
    ensures forall i | 0 <= i < |ms| && i < 40 :: Negativity(ms[i].text) <= SentimentScore(ms)
    ensures SentimentScore(ms) == 0.0 || exists i | 0 <= i < |ms| && i < 40 :: SentimentScore(ms) == Negativity(ms[i].text)
  {
    var xs := RecentIntensities(ms);
    var m := MaxWithZero(xs);
    MaxWithZeroSpec(xs);
    if m != 0.0 {
      var k :| 0 <= k < |xs| && xs[k] == m;
      assert m == Negativity(ms[k].text);
    }
    Round0To100Whole(m);
  }

  // ---------------------------------------------------------------- pattern and risk

  /** `patternScore`: 40 for severity at least 85, 30 each for authority and velocity at
      least 70. */
  function PatternScore(severity: real, authority: real, velocity: real): (r: real)
    ensures r in {0.0, 30.0, 40.0, 60.0, 70.0, 100.0}
    ensures severity >= 85.0 <==> r in {40.0, 70.0, 100.0}
    ensures authority >= 70.0 && velocity >= 70.0 <==> r in {60.0, 100.0}
    ensures authority >= 70.0 || velocity >= 70.0 <==> r in {30.0, 60.0, 70.0, 100.0}
    ensures r == 100.0 <==> severity >= 85.0 && authority >= 70.0 && velocity >= 70.0
    ensures r == 0.0 <==> severity < 85.0 && authority < 70.0 && velocity < 70.0
  {
    var raw := (if severity >= 85.0 then 40.0 else 0.0) +
      (if authority >= 70.0 then 30.0 else 0.0) +
      (if velocity >= 70.0 then 30.0 else 0.0);
    assert Whole(raw);
    Round0To100Whole(raw);
    Round0To100(raw)
  }

  /** `risk`: the weighted sum of the six sub-scores; the weights add up to one. */
  function WeightedRisk(velocity: real, authority: real, severity: real, spread: real, sentiment: real, pattern: real): (r: real)
    ensures 0.0 <= velocity <= 100.0 && 0.0 <= authority <= 100.0 && 0.0 <= severity <= 100.0 &&
            0.0 <= spread <= 100.0 && 0.0 <= sentiment <= 100.0 && 0.0 <= pattern <= 100.0 ==>
            0.0 <= r <= 100.0
    ensures velocity == authority == severity == spread == sentiment == pattern ==> r == velocity
  {
    velocity * 0.25 + authority * 0.25 + severity * 0.2 + spread * 0.15 + sentiment * 0.1 + pattern * 0.05
  }

  // ---------------------------------------------------------------- escalation

  /** `Math.exp`: only its positivity is used. */
  type Exp = f: real -> real | forall x :: f(x) > 0.0 witness (x: real) => 1.0

  datatype Horizon = H24 | H72

  /** The logistic argument `x` of `escalationPercent`. */
  function Logit(risk: real, velocity: real, horizon: Horizon): real {
    (if horizon == H24 then -2.2 else -1.6) + risk / 22.0 + velocity / 35.0
  }

  /** `clamp(Math.round(p * 100), 1, 95)` for the logistic `p = 1 / (1 + e)` of an exponential
      term `e`. */
  function Percent(e: real): (r: real)
    requires e > 0.0
    ensures 1.0 <= r <= 95.0 && Whole(r)
  {
    var p := 1.0 / (1.0 + e);
    Clamp(Round(p * 100.0) as real, 1.0, 95.0)
  }

  /** `escalationPercent`: the logistic of `x` as a whole percentage, kept in [1, 95]. */
  function EscalationPercent(risk: real, velocity: real, horizon: Horizon, exp: Exp): (r: real)
    ensures 1.0 <= r <= 95.0 && Whole(r)
  {
    Percent(exp(-Logit(risk, velocity, horizon)))
  }

  /** The logistic is a probability: strictly between 0 and 1. */
  lemma LogisticBounds(e: real)
    requires e > 0.0
    ensures 0.0 < 1.0 / (1.0 + e) < 1.0
  {
  }

  /** A smaller exponential term gives a larger percentage. */
  lemma PercentAntitone(e1: real, e2: real)
    requires 0.0 < e1 <= e2
    ensures Percent(e2) <= Percent(e1)
  {
    ReciprocalAntitone(1.0 + e1, 1.0 + e2);
    RoundMonotone(1.0 / (1.0 + e2) * 100.0, 1.0 / (1.0 + e1) * 100.0);
    ClampMonotone(Round(1.0 / (1.0 + e2) * 100.0) as real, Round(1.0 / (1.0 + e1) * 100.0) as real, 1.0, 95.0);
  }

  /** With an increasing `exp`, the 72-hour horizon's higher baseline never gives a lower
      percentage than the 24-hour one. */
  lemma EscalationHorizons(risk: real, velocity: real, exp: Exp)
    requires forall a, b | a <= b :: exp(a) <= exp(b)
    ensures EscalationPercent(risk, velocity, H24, exp) <= EscalationPercent(risk, velocity, H72, exp)
  {
    var x24 := -Logit(risk, velocity, H24);
    var x72 := -Logit(risk, velocity, H72);
    assert x72 <= x24;
    var e24, e72 := exp(x24), exp(x72);
    assert e72 <= e24;
    PercentAntitone(e72, e24);
    assert EscalationPercent(risk, velocity, H24, exp) == Percent(e24);
    assert EscalationPercent(risk, velocity, H72, exp) == Percent(e72);
  }

  lemma ReciprocalAntitone(a: real, b: real)
    requires 0.0 < a <= b
    ensures 1.0 / b <= 1.0 / a
  {
  }

  // ---------------------------------------------------------------- recommendation

  /** `category`: SAFETY when some mention weighs 1.0, otherwise the newest mention's. */
  function IssueCategory(cats: seq<Category>): Category
    requires cats != []
  {
    if MaxWeight(cats) >= 1.0 then Safety else cats[0]
  }

  /** The issue is a safety one exactly when a mention is; otherwise it takes the first
      (newest) mention's category. */
  lemma IssueCategorySpec(cats: seq<Category>)
    requires cats != []
    ensures IssueCategory(cats) == Safety <==> Safety in cats
    ensures Safety !in cats ==> IssueCategory(cats) == cats[0]
  {
    MaxWeightSpec(cats);
    if Safety in cats {
      var i :| 0 <= i < |cats| && cats[i] == Safety;
    }
  }

  /** `safetyOrLegal` */
  predicate SafetyOrLegal(severity: real, category: Category) {
    severity >= 85.0 && category in {Safety, Legal, Fraud}
  }

  /** The severity test in `safetyOrLegal` never decides: the issue's category is a safety,
      legal or fraud one only when the severity score is at least 90. */
  lemma SafetyOrLegalByCategory(cats: seq<Category>)
    requires cats != []
    ensures SafetyOrLegal(SeverityScore(cats), IssueCategory(cats)) <==> IssueCategory(cats) in {Safety, Legal, Fraud}
  {
    var c := IssueCategory(cats);
    SeverityScoreLevels(cats);
    IssueCategorySpec(cats);
    if c in {Safety, Legal, Fraud} {
      if c == Safety {
        var i :| 0 <= i < |cats| && cats[i] == Safety;
      } else {
        assert cats[0] in {Safety, Legal, Fraud};
      }
    }
  }

  datatype Action = Ignore | Monitor | Prepare | Escalate
  datatype Owner = PublicRelations | LegalTeam | CustomerExperience | Executive
  datatype Posture = Silent | Corrective | Proactive
  datatype Recommendation = Recommendation(action: Action, owner: Owner, posture: Posture)

  /** The decision table: escalate to legal on a safety, legal or fraud issue, to PR on a score
      of 75 or more; otherwise prepare from 50, monitor from 30, ignore below. */
  function Recommend(score: real, safetyOrLegal: bool): (r: Recommendation)
    ensures r.action == Escalate <==> score >= 75.0 || safetyOrLegal
    ensures r.owner == LegalTeam <==> safetyOrLegal
    ensures r.owner != CustomerExperience && r.owner != Executive
    ensures r.posture == Corrective <==> r.action == Escalate
    ensures r.action == Prepare <==> !safetyOrLegal && 50.0 <= score < 75.0
    ensures r.action == Monitor <==> !safetyOrLegal && 30.0 <= score < 50.0
    ensures r.action == Ignore <==> !safetyOrLegal && score < 30.0
    ensures r.posture == Proactive <==> r.action == Prepare
  {
    if score >= 75.0 || safetyOrLegal then
      Recommendation(Escalate, if safetyOrLegal then LegalTeam else PublicRelations, Corrective)
    else if score >= 50.0 then Recommendation(Prepare, PublicRelations, Proactive)
    else if score >= 30.0 then Recommendation(Monitor, PublicRelations, Silent)
    else Recommendation(Ignore, PublicRelations, Silent)
  }

  function ActionLevel(a: Action): nat {
    match a
    case Ignore => 0
    case Monitor => 1
    case Prepare => 2
    case Escalate => 3
  }

  /** A higher score never gets a milder action. */
  lemma RecommendMonotone(score: real, higher: real, safetyOrLegal: bool)
    requires score <= higher
    ensures ActionLevel(Recommend(score, safetyOrLegal).action) <= ActionLevel(Recommend(higher, safetyOrLegal).action)
  {
  }

  /** The `action`, `owner` and `posture` lets, set in the branches of the decision table. */
  method Decide(score0to100: real, safetyOrLegal: bool) returns (action: Action, owner: Owner, posture: Posture)
    ensures Recommendation(action, owner, posture) == Recommend(score0to100, safetyOrLegal)
  {
    action, owner, posture := Ignore, PublicRelations, Silent;
    if score0to100 >= 75.0 || safetyOrLegal {
      action := Escalate;
      owner := if safetyOrLegal then LegalTeam else PublicRelations;
      posture := Corrective;
    } else if score0to100 >= 50.0 {
      action, owner, posture := Prepare, PublicRelations, Proactive;
    } else if score0to100 >= 30.0 {
      action, owner, posture := Monitor, PublicRelations, Silent;
    } else {
      action, owner, posture := Ignore, PublicRelations, Silent;
    }
  }

  // ---------------------------------------------------------------- one issue

  /** `ims.take(250)`: the mentions read per issue. */
  const MENTION_CAP: nat := 250

  /** The query's order: newest mention first. */
  predicate NewestFirst(ms: seq<Mention>) {
    forall i, j | 0 <= i < j < |ms| :: ms[i].createdAt >= ms[j].createdAt
  }

  /** On a newest-first list, a time window is a prefix: the first `CreatedSince(ms, cutoff)`
      mentions are at or after the cutoff and the rest are before it. */
  lemma {:induction false} CreatedSincePrefix(ms: seq<Mention>, cutoff: int)
    requires NewestFirst(ms)
    ensures forall i | 0 <= i < CreatedSince(ms, cutoff) :: ms[i].createdAt >= cutoff
    ensures forall i | CreatedSince(ms, cutoff) <= i < |ms| :: ms[i].createdAt < cutoff
  {
    if ms != [] {
      var rest := ms[1..];
      assert forall i | 0 <= i < |rest| :: rest[i] == ms[i + 1];
      assert NewestFirst(rest);
      CreatedSincePrefix(rest, cutoff);
      if ms[0].createdAt < cutoff {
        CreatedSinceZero(rest, cutoff);
      }
    }
  }

  /** The fields of a `RiskScore` row. */
  datatype RiskScore = RiskScore(
    score0to100: real,
    velocityScore: real,
    authorityScore: real,
    severityScore: real,
    spreadScore: real,
    sentimentScore: real,
    patternScore: real,
    escalation24h: real,
    escalation72h: real)

  /** What one pass of the issue loop computes: the window counts (which the rationale
      reports), the risk score row, the category and the recommendation row. */
  datatype Assessment = Assessment(windows: Windows, score: RiskScore, category: Category, recommendation: Recommendation)

  /** The body of the issue loop of `scoreIssuesForOrg`, as a value; `None` for an issue with
      no mentions, which the loop skips. */
  function ScoreIssue(ms: seq<Mention>, now: int, exp: Exp, host: string -> Option<string>): (r: Option<Assessment>)
    ensures r.None? <==> ms == []
  {
    if ms == [] then None
    else
      var w := WindowCounts(ms, now);
      var velocity := VelocityScore(w);
      var authority := AuthorityScore(ms);
      var cats := Categories(ms);
      var severity := SeverityScore(cats);
      var spread := SpreadScore(ms, host);
      var sentiment := SentimentScore(ms);
      var pattern := PatternScore(severity, authority, velocity);
      var score := Round0To100(WeightedRisk(velocity, authority, severity, spread, sentiment, pattern));
      var category := IssueCategory(cats);
      Some(Assessment(
        w,
        RiskScore(score, velocity, authority, severity, spread, sentiment, pattern,
          EscalationPercent(score, velocity, H24, exp), EscalationPercent(score, velocity, H72, exp)),
        category,
        Recommend(score, SafetyOrLegal(severity, category))))
  }

  /** The ranges of everything an issue's assessment holds. */
  lemma ScoreIssueRanges(ms: seq<Mention>, now: int, exp: Exp, host: string -> Option<string>)
    requires ms != []
    ensures var a := ScoreIssue(ms, now, exp, host).value;
      && a.windows.last1h <= a.windows.last6h <= a.windows.last24h <= |ms|
      && 0.0 <= a.score.velocityScore <= 100.0
      && 50.0 <= a.score.authorityScore <= 90.0
      && 40.0 <= a.score.severityScore <= 100.0
      && 17.0 <= a.score.spreadScore <= 100.0
      && 0.0 <= a.score.sentimentScore <= 100.0
      && a.score.patternScore in {0.0, 30.0, 40.0, 60.0, 70.0, 100.0}
      && 0.0 <= a.score.score0to100 <= 100.0 && Whole(a.score.score0to100)
      && 1.0 <= a.score.escalation24h <= 95.0
      && 1.0 <= a.score.escalation72h <= 95.0
  {
    SpreadOfNonEmpty(ms, host);
    AuthorityBounds(ms);
  }

  /** The category of an issue is SAFETY when any mention is about safety, and otherwise the
      category of its first mention, which the query makes the newest. */
  lemma CategoryOfMentions(ms: seq<Mention>)
    requires ms != []
    ensures IssueCategory(Categories(ms)) == Safety <==> exists i | 0 <= i < |ms| :: ClassifySeverity(ms[i].text) == Safety
    ensures (forall i | 0 <= i < |ms| :: ClassifySeverity(ms[i].text) != Safety) ==>
      IssueCategory(Categories(ms)) == ClassifySeverity(ms[0].text)
  {
    var cats := Categories(ms);
    IssueCategorySpec(cats);
    forall i | 0 <= i < |ms| ensures cats[i] == ClassifySeverity(ms[i].text) {
      MapAt(MentionCategory, ms, i);
    }
    if Safety in cats {
      var i :| 0 <= i < |cats| && cats[i] == Safety;
      assert ClassifySeverity(ms[i].text) == Safety;
    }
    if exists i | 0 <= i < |ms| :: ClassifySeverity(ms[i].text) == Safety {
      var i :| 0 <= i < |ms| && ClassifySeverity(ms[i].text) == Safety;
      assert cats[i] == Safety;
    }
  }

  /** An issue escalates, to legal, exactly when its category is safety, law or fraud, and
      escalates to PR otherwise exactly on a score of 75 or more. */
  lemma ScoreIssueRecommendation(ms: seq<Mention>, now: int, exp: Exp, host: string -> Option<string>)
    requires ms != []
    ensures var a := ScoreIssue(ms, now, exp, host).value;
      && (a.recommendation.owner == LegalTeam <==> a.category in {Safety, Legal, Fraud})
      && (a.recommendation.action == Escalate <==> a.score.score0to100 >= 75.0 || a.category in {Safety, Legal, Fraud})
  {
    SafetyOrLegalByCategory(Categories(ms));
  }

  /** The RSS domains loop: each RSS mention whose URL parses adds its host without a leading
      `www.`; a URL that does not parse is skipped. */
  method CollectDomains(ms: seq<Mention>, host: string -> Option<string>) returns (domains: set<string>)
    ensures domains == RssDomains(ms, host)
  {
    domains := {};
    for i := 0 to |ms|
      invariant domains == RssDomains(ms[..i], host)
    {
      assert ms[..i + 1][..i] == ms[..i];
      var m := ms[i];
      if m.sourceType == Rss {
        var h := host(m.url);
        if h.Some? {
          domains := domains + {StripWww(h.value)};
        }
      }
    }
    assert ms[..|ms|] == ms;
  }

  /** One pass of the issue loop: the domains set built by its loop, the sub-scores, and the
      recommendation lets set in branches. */
  method AssessIssue(ms: seq<Mention>, now: int, exp: Exp, host: string -> Option<string>) returns (res: Option<Assessment>)
    ensures res == ScoreIssue(ms, now, exp, host)
  {
    if |ms| == 0 {
      return None;
    }
    var w := WindowCounts(ms, now);
    var velocityScore := VelocityScore(w);
    var authorityScore := AuthorityScore(ms);
    var categories := Categories(ms);
    var severityScore := SeverityScore(categories);
    var domains := CollectDomains(ms, host);
    var spreadScore := Spread(|SourceTypes(ms)|, |SourceNames(ms)|, |domains|, |Urls(ms)|);
    var sentimentScore := SentimentScore(ms);
    var patternScore := PatternScore(severityScore, authorityScore, velocityScore);
    var score0to100 := Round0To100(WeightedRisk(velocityScore, authorityScore, severityScore, spreadScore, sentimentScore, patternScore));
    var escalation24h := EscalationPercent(score0to100, velocityScore, H24, exp);
    var escalation72h := EscalationPercent(score0to100, velocityScore, H72, exp);
    var category := IssueCategory(categories);
    var action, owner, posture := Decide(score0to100, SafetyOrLegal(severityScore, category));
    res := Some(Assessment(
      w,
      RiskScore(score0to100, velocityScore, authorityScore, severityScore, spreadScore, sentimentScore, patternScore,
        escalation24h, escalation72h),
      category,
      Recommendation(action, owner, posture)));
  }

  // ---------------------------------------------------------------- the issue loop

  /** The two tables the engine upserts into, keyed by issue id. */
  datatype Tables = Tables(scores: map<nat, RiskScore>, recommendations: map<nat, Recommendation>)

  datatype IssueMentions = IssueMentions(id: nat, mentions: seq<Mention>)

  /** The upserts of one issue: both rows replaced, or nothing for a skipped issue. */
  function Record(t: Tables, issue: nat, r: Option<Assessment>): Tables {
    match r
    case None => t
    case Some(a) => Tables(t.scores[issue := a.score], t.recommendations[issue := a.recommendation])
  }

  /** The upserts of a run, in loop order. */
  function RecordAll(t: Tables, issues: seq<IssueMentions>, rs: seq<Option<Assessment>>): Tables
    requires |rs| == |issues|
  {
    if issues == [] then t
    else
      var n := |issues| - 1;
      Record(RecordAll(t, issues[..n], rs[..n]), issues[n].id, rs[n])
  }

  /** The assessment of every issue. */
  function Assessments(issues: seq<IssueMentions>, now: int, exp: Exp, host: string -> Option<string>): seq<Option<Assessment>> {
    Map((issue: IssueMentions) => ScoreIssue(issue.mentions, now, exp, host), issues)
  }

  /** Entry `i` of `Assessments` is the assessment of issue `i`. */
  lemma AssessmentsAt(issues: seq<IssueMentions>, now: int, exp: Exp, host: string -> Option<string>, i: nat)
    requires i < |issues|
    ensures Assessments(issues, now, exp, host)[i] == ScoreIssue(issues[i].mentions, now, exp, host)
  {
    MapAt((issue: IssueMentions) => ScoreIssue(issue.mentions, now, exp, host), issues, i);
  }

  /** The number of issues with at least one mention. */
  function NonEmpty(issues: seq<IssueMentions>): (n: nat)
    ensures n <= |issues|
  {
    if issues == [] then 0
    else NonEmpty(issues[..|issues| - 1]) + (if issues[|issues| - 1].mentions != [] then 1 else 0)
  }

  /** One more iteration of the loop, seen on the prefixes it has covered. */
  lemma RecordAllPrefix(t: Tables, issues: seq<IssueMentions>, rs: seq<Option<Assessment>>, i: nat)
    requires |rs| == |issues| && i < |issues|
    ensures RecordAll(t, issues[..i + 1], rs[..i + 1]) == Record(RecordAll(t, issues[..i], rs[..i]), issues[i].id, rs[i])
    ensures NonEmpty(issues[..i + 1]) == NonEmpty(issues[..i]) + if issues[i].mentions != [] then 1 else 0
  {
    assert issues[..i + 1][..i] == issues[..i];
    assert rs[..i + 1][..i] == rs[..i];
  }

  predicate DistinctIssues(issues: seq<IssueMentions>) {
    forall i, j | 0 <= i < j < |issues| :: issues[i].id != issues[j].id
  }

  /** After a run, an issue has rows exactly when it had them before or it has mentions; an
      issue with mentions holds its own assessment, and any other row is as before. */
  lemma {:induction false} RecordAllRows(t: Tables, issues: seq<IssueMentions>, rs: seq<Option<Assessment>>, id: nat)
    requires |rs| == |issues| && DistinctIssues(issues)
    ensures var u := RecordAll(t, issues, rs);
      && (id in u.scores <==> id in t.scores || exists i | 0 <= i < |issues| :: issues[i].id == id && rs[i].Some?)
      && (id in u.recommendations <==> id in t.recommendations || exists i | 0 <= i < |issues| :: issues[i].id == id && rs[i].Some?)
      && (forall i | 0 <= i < |issues| && issues[i].id == id && rs[i].Some? ::
            u.scores[id] == rs[i].value.score && u.recommendations[id] == rs[i].value.recommendation)
      && ((forall i | 0 <= i < |issues| :: issues[i].id == id ==> rs[i].None?) ==>
            (id in t.scores ==> id in u.scores && u.scores[id] == t.scores[id]) &&
            (id in t.recommendations ==> id in u.recommendations && u.recommendations[id] == t.recommendations[id]))
  {
    if issues != [] {
      var n := |issues| - 1;
      var pre := issues[..n];
      assert forall i | 0 <= i < n :: pre[i] == issues[i] && rs[..n][i] == rs[i];
      RecordAllRows(t, pre, rs[..n], id);
    }
  }

  /** The risk tables, updated in place. */
  class RiskStore {
    var scores: map<nat, RiskScore>
    var recommendations: map<nat, Recommendation>
    /** `computedAt` of every score row, as a logical clock. */
    ghost var computedAt: map<nat, nat>
    ghost var clock: nat

    function State(): Tables
      reads this
    {
      Tables(scores, recommendations)
    }

    ghost predicate Valid()
      reads this
    {
      && computedAt.Keys == scores.Keys
      && (forall id | id in computedAt :: computedAt[id] <= clock)
    }

    constructor ()
      ensures Valid() && State() == Tables(map[], map[])
    {
      scores, recommendations := map[], map[];
      computedAt, clock := map[], 0;
    }

    /** `prisma.riskScore.upsert`: the issue's score row replaced, computed now. */
    method UpsertScore(issue: nat, row: RiskScore)
      requires Valid()
      modifies this
      ensures Valid()
      ensures State() == old(State()).(scores := old(scores)[issue := row])
      ensures clock == old(clock) + 1 && computedAt == old(computedAt)[issue := clock]
    {
      scores := scores[issue := row];
      clock := clock + 1;
      computedAt := computedAt[issue := clock];
    }

    /** `prisma.recommendation.upsert`: the issue's recommendation row replaced. */
    method UpsertRecommendation(issue: nat, row: Recommendation)
      requires Valid()
      modifies this
      ensures Valid()
      ensures State() == old(State()).(recommendations := old(recommendations)[issue := row])
      ensures clock == old(clock) && computedAt == old(computedAt)
    {
      recommendations := recommendations[issue := row];
    }
  }

  /** The two upserts of one scored issue; a skipped issue writes nothing. */
  method RecordIssue(store: RiskStore, issue: nat, res: Option<Assessment>)
    requires store.Valid()
    modifies store
    ensures store.Valid()
    ensures store.State() == Record(old(store.State()), issue, res)
  {
    if res.Some? {
      store.UpsertScore(issue, res.value.score);
      store.UpsertRecommendation(issue, res.value.recommendation);
    }
  }

  /** One pass of the issue loop: the issue's rows are upserted when it has mentions. */
  method ScoreOne(store: RiskStore, issue: IssueMentions, now: int, exp: Exp, host: string -> Option<string>)
    returns (scored: bool)
    requires store.Valid()
    modifies store
    ensures store.Valid()
    ensures scored == (issue.mentions != [])
    ensures store.State() == Record(old(store.State()), issue.id, ScoreIssue(issue.mentions, now, exp, host))
  {
    var res := AssessIssue(issue.mentions, now, exp, host);
    RecordIssue(store, issue.id, res);
    scored := res.Some?;
  }

  /** The issue loop of `scoreIssuesForOrg`: every issue with mentions gets its score and
      recommendation rows, in order, and is counted once. */
  method ScoreIssues(store: RiskStore, issues: seq<IssueMentions>, now: int, exp: Exp, host: string -> Option<string>)
    returns (issuesScored: nat)
    requires store.Valid()
    requires forall i | 0 <= i < |issues| :: |issues[i].mentions| <= MENTION_CAP && NewestFirst(issues[i].mentions)
    modifies store
    ensures store.Valid()
    ensures issuesScored == NonEmpty(issues)
    ensures store.State() == RecordAll(old(store.State()), issues, Assessments(issues, now, exp, host))
  {
    ghost var t0 := store.State();
    ghost var rs := Assessments(issues, now, exp, host);
    issuesScored := 0;
    for i := 0 to |issues|
      invariant store.Valid()
      invariant issuesScored == NonEmpty(issues[..i])
      invariant store.State() == RecordAll(t0, issues[..i], rs[..i])
    {
      var scored := ScoreOne(store, issues[i], now, exp, host);
      AssessmentsAt(issues, now, exp, host, i);
      RecordAllPrefix(t0, issues, rs, i);
      if scored {
        issuesScored := issuesScored + 1;
      }
    }
    assert issues[..|issues|] == issues;
    assert rs[..|issues|] == rs;
  }
}
