# Brand-risk core: keyword matching, mention clustering and issue risk scoring

This project models three parts of a brand-monitoring service in Dafny.

- **The keyword matcher** (`lib/match/keywords.ts`). It builds a brand's normalised,
  deduplicated keyword list from the brand name, its aliases and its competitors. It also
  decides whether a fetched item mentions any keyword.
- **The clustering engine** (`lib/cluster/issues.ts`). For every brand it does three things:
  - It tokenizes each unclustered mention into a term-frequency map.
  - It compares that map, by cosine similarity, with the cached vectors of the brand's recent
    issues. It attaches the mention to the best issue at or above the 0.28 threshold.
    Otherwise it creates an EMERGING issue, with a keyword title and a summary, and caches the
    new issue's vector.
  - It recomputes the status (ACTIVE, STABILIZING, EMERGING, DYING) of the recent issues from
    their one-hour and one-day mention counts.
- **The risk engine** (`lib/risk/engine.ts`). For every issue with mentions it computes:
  - six sub-scores: velocity, authority, severity, spread, sentiment and pattern;
  - their weighted risk score;
  - two escalation percentages;
  - a recommendation (action, owner and posture) from a decision table.

  It then upserts the score row and the recommendation row.

## How the model is built

Pure code is written as functions on datatypes:
- normalisation, tokenizing, term frequencies and keyword ranking;
- the similarity, the status table and the sub-scores;
- the decision table.

Loops that accumulate are methods proved equal to those functions. Examples are `toTf`, the
`cosine` sums, the `seen`-set loop of `buildKeywordList`, the hit counter of
`negativeIntensity` and the RSS-domains loop.

The database is modelled by two classes updated in place:
- `IssueStore.Store` holds the issues, the memberships and the next issue id;
- `Risk.RiskStore` holds the score and recommendation rows.

Each per-brand or per-issue loop is a method over a store. Each method is proved to leave the
store exactly as a value-level specification says:
- `Clustering.RunOn` for the clustering loop, with `Clustering.StepOn` as one iteration;
- `ClusterRun.Recomputed` for the status recompute;
- `Risk.RecordAll` for the scoring loop.

The properties are proved about those specifications. Examples are validity of the store, which
rows are written, error-freedom, counter totals and idempotence.

### Modelling decisions

- **Characters.** Characters are ASCII. Lower-casing maps `A`-`Z` only. Whitespace is the ASCII
  part of the JavaScript `\s` class.
- **The engine's `normalize`.** The risk engine's `normalize` (`lib/risk/engine.ts:37-39`) is
  the same expression as `normalizeText` (`lib/match/keywords.ts:1-3`). Both are
  `Keywords.NormalizeText`.
- **A JavaScript `Map<string, number>`.** It is a `Tokens.TokenMap`: the keys in insertion
  order and a map of counts.
- **The cosine in squared form.** The cosine is compared only with the running best and with
  0.28, and it is never negative. So the model works with its square, `dot² / (a2 · b2)`,
  against `0.28²`. This orders the cached issues identically.
- **Numbers.** Risk numbers are exact reals. `Math.round(x)` is `⌊x + ½⌋`, which agrees with
  JavaScript on every real.
- **Environment as parameters.** `Math.exp` is a parameter of the positive-valued function type
  `Risk.Exp`. `new URL(url).hostname` is a parameter `host: string -> Option<string>`, where
  `None` means the URL throws. `Date.now()` is a parameter `now`.
- **Timestamps.** `updatedAt` and `computedAt` are ghost logical clocks in the store classes.
  Each write that sets `updatedAt` to `new Date()` takes the next tick, so it sorts after every
  earlier stamp.
- **Source types.** A source type is `Rss`, `Reddit` or `OtherSource(name)`, where the name is
  neither `RSS` nor `REDDIT`, so each string has exactly one representation.
- **Queries.** Each query result is a parameter of the method that consumes it:
  - the unclustered mentions, newest first, at most 200;
  - the brand's recent issues, at most 50 (80 in the risk engine), both before the mention loop
    and, for the status recompute, after it;
  - an issue's mentions, newest first, at most 250.

  The caps and orderings the queries guarantee are `requires` clauses.
- **`escalation72h` is never below `escalation24h`** for the same inputs: the 72-hour baseline
  is higher and the logistic is increasing (`Risk.EscalationHorizons`).
- **`safetyOrLegal` needs no severity test.** Its `severityScore >= 85` test never changes the
  outcome. A SAFETY, LEGAL or FRAUD category implies a severity of at least 90
  (`Risk.SafetyOrLegalByCategory`).

## Model

| member | source | states |
|---|---|---|
| Keywords.NormalizeTextSpec | lib/match/keywords.ts:1-3 | a normalised text has no upper-case letter, no whitespace at either end, only single spaces between words, and the same non-whitespace characters as the lower-cased input |
| Keywords.NormalizeTextIdempotent | lib/match/keywords.ts:1-3 | normalising an already normalised text changes nothing |
| Keywords.Candidates | lib/match/keywords.ts:10-12 | every name kept after trimming has at least two characters |
| Keywords.CandidatesMembers | lib/match/keywords.ts:10-12 | the kept names are exactly the trimmed forms of the input names that have at least two characters |
| Keywords.KeywordLength | lib/match/keywords.ts:10-18 | a name kept by the length filter still has at least two characters after normalisation |
| Keywords.KeywordListProperties | lib/match/keywords.ts:5-25 | the keyword list has no duplicate, every keyword has at least two characters and is the normalised form of a kept name, every kept name's normalised form is in the list, and keywords come in the order of the names' first occurrence |
| Keywords.BuildKeywordList | lib/match/keywords.ts:15-23 | the `seen`-set loop returns exactly the keyword list specification, without duplicates |
| Keywords.MatchesAnyKeyword | lib/match/keywords.ts:27-30 | an item matches exactly when some keyword is a substring of its normalised text; an empty keyword list matches nothing |
| Keywords.GateMatchesSomeName | lib/match/keywords.ts:5-30 | an item passes a brand's gate exactly when the normalised form of one of the brand's kept names occurs in its normalised text |
| Tokens.Scrub | lib/cluster/issues.ts:22 | replacing non-`[a-z0-9\s]` characters keeps the length, keeps every letter, digit and whitespace character in place, and turns every other character into a space |
| Tokens.ScrubNonSpaces | lib/cluster/issues.ts:22 | apart from whitespace, the scrubbed text is exactly the letters and digits of the input, in order |
| Tokens.ClusterNormalizeShape | lib/cluster/issues.ts:21-23 | the clustering normaliser leaves only `[a-z0-9]` and single spaces, with no space at either end, and its non-space characters are exactly the letters and digits of the lower-cased input, in order |
| Tokens.Keep | lib/cluster/issues.ts:30-31 | every kept piece has at least three characters and is not a stopword |
| Tokens.KeepMembers | lib/cluster/issues.ts:30-31 | on words, the filter keeps exactly the words of at least three characters that are not stopwords |
| Tokens.Tokenize | lib/cluster/issues.ts:25-32 | every token has at least three characters and is not a stopword |
| Tokens.TokenizeJoinWords | lib/cluster/issues.ts:25-32 | long non-stopwords joined by single spaces tokenize back to exactly those words |
| Tokens.TokenizeIdempotent | lib/cluster/issues.ts:25-32 | tokenizing the space-joined tokens of a text gives the same tokens back |
| Tokens.TokenizeSpec | lib/cluster/issues.ts:25-32 | every token is a run of `[a-z0-9]`; the tokens are exactly the space-separated words of the normalised text that are long enough and not stopwords; an empty normalised text has no token |
| Tokens.AddValid | lib/cluster/issues.ts:36 | one `m.set(tok, (m.get(tok) ?? 0) + 1)` keeps the map well formed: distinct keys, keys equal to the domain, positive counts |
| Tokens.TfSpec | lib/cluster/issues.ts:34-38 | the term-frequency map's keys are the distinct tokens in order of first occurrence, and each count is the token's number of occurrences |
| Tokens.TfTotal | lib/cluster/issues.ts:34-38 | the counts add up to the number of tokens |
| Tokens.ToTf | lib/cluster/issues.ts:34-38 | the counting loop builds the term-frequency map: keys in first-occurrence order, counts equal to occurrences |
| Seqs.Split | lib/cluster/issues.ts:29 | `split(" ")` returns at least one piece, no piece holds a space, and every piece's characters come from the input |
| Seqs.JoinSplit | lib/cluster/issues.ts:29 | joining the pieces of a split with single spaces gives the input back |
| Seqs.SplitJoin | lib/cluster/issues.ts:174 | splitting a space-joined list of space-free words gives the words back |
| Seqs.DedupFirstOccurrenceOrder | lib/cluster/issues.ts:36 | the distinct elements come in the order of their first occurrence |
| Similarity.SquareSum | lib/cluster/issues.ts:45-46 | the loop computes the sum of the squared counts |
| Similarity.DotProduct | lib/cluster/issues.ts:48-51 | the loop adds the product of the two counts for every key of `a` that `b` holds |
| Similarity.Cosine | lib/cluster/issues.ts:40-55 | the computed similarity, squared, is `dot² / (a2 · b2)`, and zero for a zero denominator |
| Similarity.Quotient | lib/cluster/issues.ts:53-54 | the squared similarity is never negative, and at most one when `dot² <= a2·b2` |
| Similarity.CauchySchwarz | lib/cluster/issues.ts:40-55 | over any keys, the squared sum of products is at most the product of the sums of squares |
| Similarity.DotSquareAtMost | lib/cluster/issues.ts:40-55 | for well-formed maps, `dot² <= a2·b2` |
| Similarity.CosineAtMostOne | lib/cluster/issues.ts:40-55 | the similarity of well-formed maps lies in [0, 1] |
| Similarity.CosineEmpty | lib/cluster/issues.ts:53-54 | a map with no key has similarity zero with anything |
| Similarity.CosineDisjoint | lib/cluster/issues.ts:48-54 | maps without a shared key have similarity zero |
| Similarity.CosinePositive | lib/cluster/issues.ts:40-55 | two well-formed maps have positive similarity exactly when they share a key |
| Similarity.CosineSymmetric | lib/cluster/issues.ts:40-55 | the similarity does not depend on the order of its arguments |
| Similarity.CosineSelf | lib/cluster/issues.ts:40-55 | a non-empty map has similarity one with itself |
| Summary.SortByCountSpec | lib/cluster/issues.ts:60 | the sort by descending count is a permutation, orders by non-increasing count and keeps keys distinct |
| Summary.SortByCountStable | lib/cluster/issues.ts:60 | the sort is stable: entries of equal count keep their input order |
| Summary.EntriesSpec | lib/cluster/issues.ts:59-60 | the map's entries are the distinct tokens with their occurrence counts, in first-occurrence order |
| Summary.RankedEntriesSpec | lib/cluster/issues.ts:58-60 | the ranked entries are the distinct tokens with their counts, by non-increasing count, ties in first-occurrence order |
| Summary.TopKeywordsTokens | lib/cluster/issues.ts:57-62 | `topKeywords` returns distinct tokens of the text: `max` of them, or all distinct tokens when there are fewer |
| Summary.TopKeywordsOrder | lib/cluster/issues.ts:57-62 | the keywords come in non-increasing order of frequency, ties in order of first occurrence |
| Summary.TopKeywordsMostFrequent | lib/cluster/issues.ts:57-62 | no token left out is more frequent than a returned keyword |
| Summary.IssueTitleKeywords | lib/cluster/issues.ts:173-174 | a new issue's title splits back into its keywords; a text without keywords gets the title "New issue" |
| Summary.SummarizeSpec | lib/cluster/issues.ts:64-68 | a collapsed text that fits is its own summary; a longer one becomes a prefix of it plus an ellipsis, of length exactly `maxLen` when `maxLen` is at least one |
| IssueStore.WritesKeepValid | lib/cluster/issues.ts:177-188 | creating an issue under a fresh id, and attaching a mention that has no membership to an existing issue, keep every membership pointing at an existing issue |
| IssueStore.CountSinceMonotone | lib/cluster/issues.ts:213-218 | the one-hour count never exceeds the one-day count |
| IssueStore.Store.Create | lib/cluster/issues.ts:177-184 | `issue.create` adds an EMERGING issue with the given title and summary under a fresh id, and stamps its `updatedAt` with the next tick of the clock |
| IssueStore.Store.AttachMention | lib/cluster/issues.ts:161-163 | `issueMention.create` succeeds, adding the membership, exactly when the issue exists and the mention has no membership; otherwise nothing changes |
| IssueStore.Store.Touch | lib/cluster/issues.ts:165-168 | `issue.update` of `updatedAt` advances only that issue's timestamp |
| IssueStore.Store.SetStatus | lib/cluster/issues.ts:221-224 | `issue.update` of `status` changes only that issue's status |
| Clustering.StatusTable | lib/cluster/issues.ts:70-75 | ACTIVE exactly when at least 5 in the last hour; STABILIZING exactly when at most 1 in the hour and at least 5 in the day; EMERGING and DYING in the remaining cases, DYING exactly on an empty day |
| Clustering.StatusExamples | lib/cluster/issues.ts:70-75 | concrete rows of the status table |
| Clustering.StatusOfNestedCounts | lib/cluster/issues.ts:70-75 | when the hour lies inside the day: DYING exactly when the day is empty, ACTIVE and STABILIZING need at least 5 in the day, and 2 to 4 in the hour mean EMERGING |
| Clustering.BuildIssueVectorSpec | lib/cluster/issues.ts:78-100 | an issue's vector is well formed; it is empty for a missing issue, and otherwise its keys are the tokens of its title, non-empty summary and recent mention texts |
| Clustering.BestSpec | lib/cluster/issues.ts:148-157 | the selection picks the first index with the highest score, provided that score is positive; with no positive score nothing is picked |
| Clustering.Prepare | lib/cluster/issues.ts:172-191 | what a mention contributes: a well-formed vector whose keys are exactly the mention's tokens; a title that splits back into the top keywords, or "New issue" when there are none; a summary of at most 240 characters; and a well-formed cache vector for the new issue |
| Clustering.StepValid | lib/cluster/issues.ts:144-198 | one mention keeps the store valid, keeps every cached issue in the store and distinct, and only appends to the cache |
| Clustering.StepOutcomes | lib/cluster/issues.ts:144-198 | one mention records exactly one outcome and keeps the earlier ones |
| Clustering.StepKeeps | lib/cluster/issues.ts:144-198 | one mention overwrites no issue and no membership, and adds at most its own membership |
| Clustering.StepAssigned | lib/cluster/issues.ts:159-170 | an assignment goes to the first cached issue of highest similarity, which reaches the threshold; only the mention's membership is added |
| Clustering.StepCreated | lib/cluster/issues.ts:171-194 | an issue is created only when no cached issue reaches the threshold; it gets the next id, the prepared title and summary and status EMERGING, and it becomes the mention's issue and the cache's last entry |
| Clustering.StepFailed | lib/cluster/issues.ts:195-197 | an error adds no membership and no cache entry |
| Clustering.StepFailsWhen | lib/cluster/issues.ts:159-197 | with the cache in the store, a mention errors exactly when it already has a membership, and otherwise ends with one |
| Clustering.NoSharedTokenNotAssigned | lib/cluster/issues.ts:148-170 | a mention sharing no token with any cached issue is never attached to an existing issue |
| Clustering.IdenticalVectorAssigned | lib/cluster/issues.ts:148-170 | a new mention whose non-empty vector equals a cached issue's vector is attached, with best similarity one |
| Clustering.EmptyVectorCreates | lib/cluster/issues.ts:148-194 | a new mention without tokens scores zero against every issue and creates a new one |
| Clustering.AboveThresholdNotCreated | lib/cluster/issues.ts:148-194 | a mention reaching the threshold with some cached issue never creates an issue |
| Clustering.RunValid | lib/cluster/issues.ts:144-198 | the loop records one outcome per mention, only appends to the cache and keeps the store valid |
| Clustering.RunKeeps | lib/cluster/issues.ts:144-198 | the loop overwrites no issue and no membership, and every new membership belongs to one of its mentions |
| Clustering.RunNoFailures | lib/cluster/issues.ts:144-198 | unclustered mentions with distinct ids never error, and each ends up a member of some issue |
| Clustering.TallyTotal | lib/cluster/issues.ts:170-196 | every outcome is counted exactly once among assigned, created and errors |
| ClusterRun.InitialCache | lib/cluster/issues.ts:137-140 | one cache entry per loaded issue |
| ClusterRun.IssueVector | lib/cluster/issues.ts:78-100 | `buildIssueVector` collects the texts in order and returns the term frequencies of their space-joined text, which are well formed |
| ClusterRun.LoadCache | lib/cluster/issues.ts:136-140 | the cache holds each loaded issue's vector, in load order |
| ClusterRun.BestMatch | lib/cluster/issues.ts:148-157 | the selection loop over the cache ends with the choice the selection specification makes |
| ClusterRun.AttachToBest | lib/cluster/issues.ts:159-170 | the attach branch leaves the store as one step of the loop specification says; a successful attach stamps the issue's `updatedAt` with the next tick of the clock, and a failed one changes no stamp |
| ClusterRun.CreateFor | lib/cluster/issues.ts:171-194 | the create branch leaves the store and the cache as one step of the loop specification says; the new issue, which had no stamp, gets the next tick whether or not its attach succeeds |
| ClusterRun.ProcessMention | lib/cluster/issues.ts:145-197 | one pass of the `try`/`catch` is one step of the loop specification; an attach or a create stamps its issue with the next tick, and a failure changes no earlier stamp |
| ClusterRun.StampedIsNewest | lib/cluster/issues.ts:164-167 | after an attach or a create, the stamped issue is strictly ahead of every other issue in `updatedAt` order |
| ClusterRun.TouchedAfterStep | lib/cluster/issues.ts:144-198 | one more step keeps the stamp summary of the loop: touched issues are stamped after the loop began, the others keep their stamps |
| ClusterRun.CountOutcome | lib/cluster/issues.ts:170-196 | the counters go up by one, for the outcome's kind |
| ClusterRun.AssignMentions | lib/cluster/issues.ts:144-198 | the mention loop leaves the store as the loop specification says, and its counters are the specification's tallies; every issue it attached to or created is stamped after every stamp from before the loop, and every other issue keeps its stamp |
| ClusterRun.ClusterBrand | lib/cluster/issues.ts:110-234 | one brand's pass runs the mention loop and then the status recompute over the recent issues: the store ends as the loop specification followed by the recompute specification says, and the touched issues are stamped after the pass began; its result counts every scanned mention exactly once, and reports no error when the mention ids are distinct |
| ClusterRun.RunTallies | lib/cluster/issues.ts:144-198 | the counters of a run add up to the number of mentions, and the error count is zero for distinct unclustered mentions |
| ClusterRun.RecomputedKeeps | lib/cluster/issues.ts:212-225 | the recompute changes only the recomputed issues' statuses, each taken from its window counts alone |
| ClusterRun.RecomputedIdempotent | lib/cluster/issues.ts:212-225 | recomputing twice at the same time gives the same store |
| ClusterRun.RecomputedStatus | lib/cluster/issues.ts:212-225 | a recomputed issue is DYING exactly when none of its mentions is from the last day; ACTIVE or STABILIZING needs at least 5 from the last day |
| ClusterRun.RecomputeStatuses | lib/cluster/issues.ts:200-225 | the status loop leaves the store as the recompute specification says, and changes no `updatedAt` stamp |
| Risk.SeverityWeight | lib/risk/engine.ts:12-20 | the weight of each category: SAFETY 1.0, LEGAL and FRAUD 0.9, ETHICS 0.85, PRICING 0.6, SUPPORT 0.55, OTHER 0.4 |
| Risk.SourceWeight | lib/risk/engine.ts:22-25 | a source weighs 0.9 if RSS, 0.6 if Reddit and 0.5 for any other type |
| Risk.Clamp | lib/risk/engine.ts:33-35 | the result lies in the range and is the input when the input does; out-of-range inputs go to the nearer bound; an empty range gives the lower bound |
| Risk.ClampMonotone | lib/risk/engine.ts:33-35 | clamping is monotone |
| Risk.Round | lib/risk/engine.ts:79 | the nearest integer: within half a unit, halves rounded up |
| Risk.Round0To100 | lib/risk/engine.ts:78-80 | a whole number in [0, 100], within half a unit of an in-range input, 0 below the range and 100 above it |
| Risk.Round0To100Monotone | lib/risk/engine.ts:78-80 | rounding into [0, 100] is monotone |
| Risk.Round0To100Whole | lib/risk/engine.ts:78-80 | a whole number in [0, 100] is unchanged |
| Risk.ClassifyPriority | lib/risk/engine.ts:41-60 | the chosen category's lexicon matches and no lexicon tried before it does; OTHER exactly when no lexicon matches |
| Risk.FireAndLawsuitIsSafety | lib/risk/engine.ts:44-54 | a text with both a safety word and a legal word is SAFETY, because safety is tried first |
| Risk.HitsZero | lib/risk/engine.ts:65 | no hit exactly when no listed word occurs |
| Risk.Negativity | lib/risk/engine.ts:62-68 | twelve points per negative word present, capped at 100 |
| Risk.NegativeIntensity | lib/risk/engine.ts:62-68 | the hit-counting loop computes that negativity |
| Risk.CountHits | lib/risk/engine.ts:64-65 | the loop counts the listed words that occur |
| Risk.CreatedSince | lib/risk/engine.ts:117-119 | a window count is at most the number of mentions |
| Risk.CreatedSinceZero | lib/risk/engine.ts:117-119 | a window count is zero exactly when every mention is older than the cutoff |
| Risk.CreatedSinceMonotone | lib/risk/engine.ts:117-119 | a later cutoff counts no more mentions |
| Risk.CreatedSincePrefix | lib/risk/engine.ts:108-119 | on the newest-first mention list, each time window is a prefix: the counted mentions come first |
| Risk.WindowCounts | lib/risk/engine.ts:117-119 | hour ≤ six hours ≤ day ≤ number of mentions |
| Risk.Prior5h | lib/risk/engine.ts:122 | the prior five hours' count is the six-hour count minus the one-hour count |
| Risk.VelocityScore | lib/risk/engine.ts:122-124 | a whole number in [0, 100], zero with no mention in the last hour |
| Risk.VelocityWithoutBacklog | lib/risk/engine.ts:122-124 | with at most five mentions in the five hours before, the score is 22 per mention in the last hour, capped at 100 |
| Risk.WeightSum | lib/risk/engine.ts:127-128 | the summed weights lie between 0.5 and 0.9 per mention |
| Risk.AuthorityBounds | lib/risk/engine.ts:127-131 | a non-empty issue's authority lies between 50 and 90 |
| Risk.MaxWeight | lib/risk/engine.ts:135 | the maximum weight lies in [0.4, 1.0] |
| Risk.MaxWeightSpec | lib/risk/engine.ts:135 | the maximum bounds every category's weight, and is 0.4 or one of them |
| Risk.SeverityScore | lib/risk/engine.ts:134-136 | a whole number in [40, 100] |
| Risk.SeverityScoreLevels | lib/risk/engine.ts:134-136 | severity is 100 exactly when a mention is SAFETY, at least 90 exactly when one is SAFETY, LEGAL or FRAUD, and at least 85 exactly when one is SAFETY, LEGAL, FRAUD or ETHICS |
| Risk.StripWww | lib/risk/engine.ts:148 | a leading `www.` is removed (once), and a hostname without one is unchanged |
| Risk.RssDomainsMembers | lib/risk/engine.ts:143-153 | the domains are exactly the stripped hosts of the RSS mentions whose URL parses |
| Risk.CollectDomains | lib/risk/engine.ts:143-153 | the domains loop builds that set |
| Risk.Spread | lib/risk/engine.ts:155-156 | a whole number in [0, 100], at least 17 with one source type, source and URL |
| Risk.SpreadOfNonEmpty | lib/risk/engine.ts:139-156 | a non-empty issue's spread lies in [17, 100] |
| Risk.MaxWithZero | lib/risk/engine.ts:160 | `Math.max(...xs, 0)` is never negative |
| Risk.MaxWithZeroSpec | lib/risk/engine.ts:160 | the maximum bounds every element, and is 0 or one of them |
| Risk.RecentIntensities | lib/risk/engine.ts:160 | entry `i` is the negative intensity of mention `i`, for the first 40 mentions, or for all of them when there are fewer |
| Risk.SentimentScore | lib/risk/engine.ts:159-161 | the sentiment lies in [0, 100] |
| Risk.SentimentSpec | lib/risk/engine.ts:159-161 | the sentiment is the strongest negativity among the 40 newest mentions, or 0 |
| Risk.PatternScore | lib/risk/engine.ts:164-168 | one of 0, 30, 40, 60, 70, 100: 40, 70 or 100 exactly with severity ≥ 85; 60 or 100 exactly when authority and velocity both reach 70; 30, 60, 70 or 100 exactly when either does; 100 exactly when all three thresholds hold, 0 exactly when none does |
| Risk.WeightedRisk | lib/risk/engine.ts:171-177 | in-range sub-scores give a risk in [0, 100], and equal sub-scores give that value (the weights add up to one) |
| Risk.Percent | lib/risk/engine.ts:74-75 | a whole percentage in [1, 95] |
| Risk.EscalationPercent | lib/risk/engine.ts:71-76 | a whole percentage in [1, 95] |
| Risk.LogisticBounds | lib/risk/engine.ts:74 | the logistic lies strictly between 0 and 1 |
| Risk.PercentAntitone | lib/risk/engine.ts:74-75 | a smaller exponential term never gives a smaller percentage |
| Risk.EscalationHorizons | lib/risk/engine.ts:181-182 | with an increasing exponential, the 72-hour percentage is never below the 24-hour one |
| Risk.IssueCategorySpec | lib/risk/engine.ts:214 | SAFETY exactly when some mention is SAFETY; otherwise the first mention's category |
| Risk.SafetyOrLegalByCategory | lib/risk/engine.ts:219 | `safetyOrLegal` holds exactly when the category is SAFETY, LEGAL or FRAUD |
| Risk.Recommend | lib/risk/engine.ts:215-236 | ESCALATE exactly on a score ≥ 75 or safety/legal, owned by legal exactly on safety/legal, else by PR; otherwise PREPARE on [50, 75), MONITOR on [30, 50), IGNORE below 30; CORRECTIVE exactly with ESCALATE, PROACTIVE exactly with PREPARE |
| Risk.RecommendMonotone | lib/risk/engine.ts:220-236 | a higher score never gets a milder action |
| Risk.Decide | lib/risk/engine.ts:215-236 | the branches set the action, owner and posture of the decision table |
| Risk.ScoreIssue | lib/risk/engine.ts:112 | an issue is assessed exactly when it has mentions |
| Risk.ScoreIssueRanges | lib/risk/engine.ts:116-182 | each sub-score, the risk score and both escalation percentages lie in their ranges; the window counts are nested |
| Risk.CategoryOfMentions | lib/risk/engine.ts:134-214 | an issue is SAFETY exactly when one of its mentions is classified SAFETY; otherwise it takes its newest mention's category |
| Risk.ScoreIssueRecommendation | lib/risk/engine.ts:214-236 | an issue goes to legal exactly when its category is SAFETY, LEGAL or FRAUD, and escalates exactly then or on a score ≥ 75 |
| Risk.AssessIssue | lib/risk/engine.ts:114-236 | one pass of the issue loop computes the assessment the specification gives |
| Risk.RecordAllRows | lib/risk/engine.ts:185-252 | after a run, an issue has rows exactly when it had them or has mentions; a scored issue holds its own assessment; other rows are unchanged |
| Risk.RiskStore.UpsertScore | lib/risk/engine.ts:185-211 | `riskScore.upsert` replaces only that issue's score row, and stamps `computedAt` |
| Risk.RiskStore.UpsertRecommendation | lib/risk/engine.ts:248-252 | `recommendation.upsert` replaces only that issue's recommendation row |
| Risk.RecordIssue | lib/risk/engine.ts:185-252 | a scored issue's two rows are upserted, and a skipped issue writes nothing |
| Risk.ScoreOne | lib/risk/engine.ts:104-255 | one issue is scored exactly when it has mentions, and its rows are written as the specification says |
| Risk.ScoreIssues | lib/risk/engine.ts:104-255 | the loop leaves both tables as the specification says, and `issuesScored` is the number of issues with mentions |

## Left out

- Unicode: characters are ASCII. `toLowerCase` lower-cases `A`-`Z` only, and `\s` is its ASCII part (no non-breaking or other Unicode spaces).
- Floating point: risk numbers are exact reals, so rounding errors of IEEE doubles (for example in `p * 100` near a half) are not modelled.
- `Math.sqrt`: the cosine is modelled squared (see above), so the similarity value itself is never computed.
- `Math.exp` and URL parsing are parameters: only the positivity of `exp` is used, and `EscalationHorizons` assumes it is increasing.
- The database queries, `findMany` and `findUnique`: their results are inputs.
  - The brand loops of `clusterMentionsForOrg` and `scoreIssuesForOrg` are not modelled: each brand's pass is a call of `ClusterBrand` or `ScoreIssues`.
  - The risk engine's list of up to 80 issues per brand is the input list of `ScoreIssues`.
  - `buildIssueVector`'s lookup of the 25 newest mention texts is the input `IssueRecord`.
- Issue ids are the store's counter (`nextId`) rather than database-generated strings. Only their freshness is used.
- The second `issue.findMany` of the status recompute: `ClusterBrand` takes its result as the input `recent`, required to hold issues of the store as the mention loop leaves it. That they are the 50 most recently updated is not derived from the `updatedAt` clock. The facts about that order are `ClusterRun.StampedIsNewest` and the stamp clauses of `ClusterRun.AssignMentions`.
- Database failures other than a duplicate membership, or a membership of an issue that does not exist, are not modelled (connection errors, `issue.update` failures). So an `Assigned` step never fails after its attach succeeded.
- Concurrency: runs are sequential, and no other writer touches the store during a run.
- The `rationale` string of the recommendation row is not modelled: the window counts it reports are kept in `Risk.Assessment`.
- `Risk.SourceWeight`: `SOURCE_WEIGHTS[m.sourceType] ?? 0.5` on a source type named like an `Object.prototype` member (such as `constructor`) would read that member. Such a source type weighs 0.5 here.
- `Risk.AuthorityScore`, `Risk.SpreadScore` and `Risk.Classify` have no contract of their own: their bounds and priority order are stated by `Risk.AuthorityBounds`, `Risk.SpreadOfNonEmpty` and `Risk.ClassifyPriority`.
- `Clustering.Best`: its own contract states only that the index is in range; `Clustering.BestSpec` states the selection.
- `Risk.EscalationPercent`: its own contract states the range only; the comparison of the two horizons is `Risk.EscalationHorizons`, under an increasing `exp`.
