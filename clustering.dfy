/** The decisions of the clustering engine (lib/cluster/issues.ts): issue status from window
    counts, best-match selection over the in-run cache of issue vectors, and the effect of one
    mention on the store, the cache and the run's counters. */
module Clustering {
  import opened Seqs
  import opened Mentions
  import opened Tokens
  import opened Similarity
  import opened Summary
  import opened IssueStore

  const HOUR_MS: int := 60 * 60 * 1000
  const DAY_MS: int := 24 * 60 * 60 * 1000

  /** The attach threshold on the cosine similarity. */
  const SIM_THRESHOLD: real := 0.28
  /** The same threshold on the squared similarity. */
  const THRESHOLD_SQ: real := SIM_THRESHOLD * SIM_THRESHOLD

  /** Number of keywords in the title of a new issue. */
  const TITLE_KEYWORDS: nat := 6

  /** `statusFromCounts` */
  function StatusFromCounts(last1h: nat, last24h: nat): Status {
    if last1h >= 5 then Active
    else if last24h >= 5 && last1h <= 1 then Stabilizing
    else if last24h >= 1 then Emerging
    else Dying
  }

  /** The status table, one row per status. */
  lemma StatusTable(last1h: nat, last24h: nat)
    ensures StatusFromCounts(last1h, last24h) == Active <==> last1h >= 5
    ensures StatusFromCounts(last1h, last24h) == Stabilizing <==> last1h <= 1 && last24h >= 5
    ensures StatusFromCounts(last1h, last24h) == Emerging <==>
      last1h < 5 && last24h >= 1 && !(last24h >= 5 && last1h <= 1)
    ensures StatusFromCounts(last1h, last24h) == Dying <==> last1h < 5 && last24h == 0
  {
  }

  lemma StatusExamples()
    ensures StatusFromCounts(6, 0) == Active && StatusFromCounts(6, 40) == Active
    ensures StatusFromCounts(1, 7) == Stabilizing
    ensures StatusFromCounts(2, 2) == Emerging
    ensures StatusFromCounts(0, 0) == Dying
  {
  }

  /** With nested windows (the last hour lies inside the last day), an issue is DYING exactly
      when nothing arrived in the last day, ACTIVE and STABILIZING need at least five mentions
      in the day, and two to four mentions in the last hour keep a busy issue EMERGING. */
  lemma StatusOfNestedCounts(last1h: nat, last24h: nat)
    requires last1h <= last24h
    ensures StatusFromCounts(last1h, last24h) == Dying <==> last24h == 0
    ensures StatusFromCounts(last1h, last24h) in {Active, Stabilizing} ==> last24h >= 5
    ensures 2 <= last1h < 5 ==> StatusFromCounts(last1h, last24h) == Emerging
  {
  }

  /** An entry of the in-run cache `issueVectors`. */
  datatype CacheEntry = CacheEntry(id: nat, vector: TokenMap)

  /** What `buildIssueVector` reads: the issue's title, its summary, and the texts of its
      most recent mentions (newest first, at most 25). */
  datatype IssueRecord = IssueRecord(title: string, summary: Option<string>, mentionTexts: seq<string>)

  /** The title, the summary when present and not empty, then the mention texts. */
  function IssueTexts(rec: IssueRecord): seq<string> {
    [rec.title] + (if rec.summary.Some? && rec.summary.value != "" then [rec.summary.value] else []) + rec.mentionTexts
  }

  /** `buildIssueVector`: the term frequencies of the issue's texts joined by spaces; an issue
      that is not found has the empty map. */
  function BuildIssueVector(rec: Option<IssueRecord>): TokenMap {
    if rec.None? then TokenMap([], map[]) else Tf(Tokenize(Join(IssueTexts(rec.value), " ")))
  }

  /** An issue vector is a well-formed map whose keys are the tokens of the issue's texts. */
  lemma BuildIssueVectorSpec(rec: Option<IssueRecord>)
    ensures BuildIssueVector(rec).Valid()
    ensures rec.None? ==> BuildIssueVector(rec).keys == []
    ensures rec.Some? ==> forall k :: k in BuildIssueVector(rec).counts <==> k in Tokenize(Join(IssueTexts(rec.value), " "))
  {
    if rec.Some? {
      TfSpec(Tokenize(Join(IssueTexts(rec.value), " ")));
    }
  }

  /** The squared similarity of a mention vector to each cached issue, in cache order. */
  function Scores(mv: TokenMap, cache: seq<CacheEntry>): (r: seq<real>)
    ensures |r| == |cache|
  {
    seq(|cache|, i requires 0 <= i < |cache| => CosSq(mv, cache[i].vector))
  }

  lemma ScoresAt(mv: TokenMap, cache: seq<CacheEntry>)
    ensures forall i | 0 <= i < |cache| :: Scores(mv, cache)[i] == CosSq(mv, cache[i].vector)
  {
  }

  /** The index and score the selection loop ends with. */
  datatype Choice = Choice(index: Option<nat>, score: real)

  /** The selection loop: starting from score 0 and no issue, an issue replaces the current
      choice only with a strictly higher score. */
  function Best(scores: seq<real>): (c: Choice)
    ensures c.index.Some? ==> c.index.value < |scores|
  {
    if scores == [] then Choice(None, 0.0)
    else
      var c := Best(scores[..|scores| - 1]);
      if scores[|scores| - 1] > c.score then Choice(Some(|scores| - 1), scores[|scores| - 1]) else c
  }

  /** The choice is the first index with the highest score, provided that score is positive;
      otherwise no issue is chosen. */
  lemma {:induction false} BestSpec(scores: seq<real>)
    ensures Best(scores).score >= 0.0
    ensures forall j | 0 <= j < |scores| :: scores[j] <= Best(scores).score
    ensures Best(scores).index.None? ==> Best(scores).score == 0.0
    ensures Best(scores).index.Some? ==>
      && scores[Best(scores).index.value] == Best(scores).score > 0.0
      && forall j | 0 <= j < Best(scores).index.value :: scores[j] < Best(scores).score
  {
    if scores != [] {
      BestSpec(scores[..|scores| - 1]);
    }
  }

  /** One more score seen by the selection loop. */
  lemma BestPrefix(scores: seq<real>, j: nat)
    requires j < |scores|
    ensures Best(scores[..j + 1]) ==
      var c := Best(scores[..j]);
      if scores[j] > c.score then Choice(Some(j), scores[j]) else c
  {
    assert scores[..j + 1][..j] == scores[..j];
  }

  /** The outcome of one mention: attached to an existing issue, attached to a new one, or an
      error caught by the `try`. */
  datatype Outcome = Assigned(issue: nat) | Created(issue: nat) | Failed

  /** The state the per-mention loop carries: the store, the cache and the outcomes so far. */
  datatype RunState = RunState(st: StoreState, cache: seq<CacheEntry>, outcomes: seq<Outcome>)

  function MentionVector(m: Mention): TokenMap {
    Tf(Tokenize(m.text))
  }

  function NewIssueTitle(m: Mention): string {
    IssueTitle(TopKeywords(m.text, TITLE_KEYWORDS))
  }

  function NewIssueSummary(m: Mention): string {
    Summarize(m.text, SUMMARY_LEN)
  }

  /** The cache vector of a new issue: the tokens of `${title} ${summary} ${text}`. */
  function NewIssueVector(title: string, summary: string, text: string): TokenMap {
    Tf(Tokenize(title + " " + summary + " " + text))
  }

  /** What the loop computes from a mention alone: its vector, and the title, summary and
      cache vector of the issue it would create. */
  datatype Prep = Prep(vector: TokenMap, title: string, summary: string, newVector: TokenMap)

  function Prepare(m: Mention): (p: Prep)
    ensures p.vector.Valid() && p.newVector.Valid()
    ensures forall k :: k in p.vector.counts <==> k in Tokenize(m.text)
    ensures TopKeywords(m.text, TITLE_KEYWORDS) != [] ==> Split(p.title) == TopKeywords(m.text, TITLE_KEYWORDS)
    ensures TopKeywords(m.text, TITLE_KEYWORDS) == [] ==> p.title == "New issue"
    ensures |p.summary| <= SUMMARY_LEN
  {
    var title := NewIssueTitle(m);
    var summary := NewIssueSummary(m);
    TfSpec(Tokenize(m.text));
    TfSpec(Tokenize(title + " " + summary + " " + m.text));
    IssueTitleKeywords(m.text);
    SummarizeSpec(m.text, SUMMARY_LEN);
    Prep(MentionVector(m), title, summary, NewIssueVector(title, summary, m.text))
  }

  /** One iteration of the per-mention loop: attach to the best-matching cached issue when its
      similarity reaches the threshold, otherwise create an issue, attach to it and cache its
      vector; a failed attach is an error and leaves any issue just created in place. */
  function StepOn(rs: RunState, m: Mention, p: Prep): RunState {
    var best := Best(Scores(p.vector, rs.cache));
    if best.index.Some? && best.score >= THRESHOLD_SQ then
      var id := rs.cache[best.index.value].id;
      if CanAttach(rs.st, id, m) then rs.(st := Attach(rs.st, id, m), outcomes := rs.outcomes + [Assigned(id)])
      else rs.(outcomes := rs.outcomes + [Failed])
    else
      var id := rs.st.nextId;
      var st1 := CreateIssue(rs.st, p.title, p.summary);
      if CanAttach(st1, id, m) then
        RunState(Attach(st1, id, m), rs.cache + [CacheEntry(id, p.newVector)], rs.outcomes + [Created(id)])
      else
        rs.(st := st1, outcomes := rs.outcomes + [Failed])
  }

  /** The loop over `ms` with the mentions' precomputed values `ps`, in order. */
  function RunOn(rs: RunState, ms: seq<Mention>, ps: seq<Prep>): RunState
    requires |ps| == |ms|
  {
    if ms == [] then rs else StepOn(RunOn(rs, ms[..|ms| - 1], ps[..|ms| - 1]), ms[|ms| - 1], ps[|ms| - 1])
  }

  /** What the loop computes from each mention, in order. */
  function Preps(ms: seq<Mention>): seq<Prep> {
    Map(Prepare, ms)
  }

  /** The per-mention loop over `ms`, in order. */
  function Run(rs: RunState, ms: seq<Mention>): RunState {
    RunOn(rs, ms, Preps(ms))
  }

  /** Every cached issue exists, and no issue is cached twice. */
  predicate CacheInStore(rs: RunState) {
    && (forall i | 0 <= i < |rs.cache| :: rs.cache[i].id in rs.st.issues)
    && (forall i, j | 0 <= i < j < |rs.cache| :: rs.cache[i].id != rs.cache[j].id)
  }

  /** The mention ids the store knows a membership for, besides those of `ms`. */
  predicate MembersFrom(st: StoreState, before: StoreState, ms: seq<Mention>) {
    forall k | k in st.members :: k in before.members || exists i | 0 <= i < |ms| :: ms[i].id == k
  }

  /** One step keeps the store valid and the cache in the store, and only appends to the
      cache. */
  lemma StepValid(rs: RunState, m: Mention, p: Prep)
    requires ValidState(rs.st) && CacheInStore(rs)
    ensures ValidState(StepOn(rs, m, p).st) && CacheInStore(StepOn(rs, m, p))
    ensures rs.cache <= StepOn(rs, m, p).cache
  {
    assert rs.st.nextId !in rs.st.issues;
  }

  /** One step appends exactly one outcome. */
  lemma StepOutcomes(rs: RunState, m: Mention, p: Prep)
    ensures |StepOn(rs, m, p).outcomes| == |rs.outcomes| + 1
    ensures StepOn(rs, m, p).outcomes[..|rs.outcomes|] == rs.outcomes
  {
    var rs' := StepOn(rs, m, p);
    assert rs'.outcomes[..|rs.outcomes|] == rs.outcomes;
  }

  /** One step keeps every issue and every membership, and adds at most the mention's own
      membership. */
  lemma StepKeeps(rs: RunState, m: Mention, p: Prep)
    requires ValidState(rs.st)
    ensures var rs' := StepOn(rs, m, p);
      && (forall id | id in rs.st.issues :: id in rs'.st.issues && rs'.st.issues[id] == rs.st.issues[id])
      && (forall k | k in rs.st.members :: k in rs'.st.members && rs'.st.members[k] == rs.st.members[k])
      && (forall k | k in rs'.st.members :: k in rs.st.members || k == m.id)
  {
    assert rs.st.nextId !in rs.st.issues;
  }

  /** The last outcome of a step. */
  function LastOutcome(rs: RunState): Outcome
    requires rs.outcomes != []
  {
    rs.outcomes[|rs.outcomes| - 1]
  }

  /** An assignment goes to the first cached issue with the highest similarity, which is at
      least the threshold, records the membership, and leaves the cache and the issues alone. */
  lemma StepAssigned(rs: RunState, m: Mention, p: Prep)
    requires LastOutcome(StepOn(rs, m, p)).Assigned?
    ensures var rs' := StepOn(rs, m, p); var o := LastOutcome(rs');
      var scores := Scores(p.vector, rs.cache); var best := Best(scores);
      && best.index.Some? && o.issue == rs.cache[best.index.value].id
      && scores[best.index.value] >= THRESHOLD_SQ
      && (forall j | 0 <= j < |scores| :: scores[j] <= scores[best.index.value])
      && (forall j | 0 <= j < best.index.value :: scores[j] < scores[best.index.value])
      && rs'.cache == rs.cache && rs'.st.issues == rs.st.issues
      && rs'.st.members == rs.st.members[m.id := Membership(o.issue, m.createdAt)]
  {
    BestSpec(Scores(p.vector, rs.cache));
  }

  /** A new issue is created only when no cached issue reaches the threshold; it gets the next
      id, the prepared title and summary and status EMERGING, the mention becomes its member,
      and its vector is appended to the cache. */
  lemma StepCreated(rs: RunState, m: Mention, p: Prep)
    requires LastOutcome(StepOn(rs, m, p)).Created?
    ensures var rs' := StepOn(rs, m, p); var o := LastOutcome(rs');
      var best := Best(Scores(p.vector, rs.cache));
      && (best.index.None? || best.score < THRESHOLD_SQ)
      && o.issue == rs.st.nextId
      && rs'.st.issues == rs.st.issues[o.issue := Issue(p.title, p.summary, Emerging)]
      && rs'.cache == rs.cache + [CacheEntry(o.issue, p.newVector)]
      && rs'.st.members == rs.st.members[m.id := Membership(o.issue, m.createdAt)]
  {
  }

  /** An error changes no membership and no cached vector. */
  lemma StepFailed(rs: RunState, m: Mention, p: Prep)
    requires LastOutcome(StepOn(rs, m, p)).Failed?
    ensures StepOn(rs, m, p).st.members == rs.st.members && StepOn(rs, m, p).cache == rs.cache
  {
  }

  /** While every cached issue is in the store, a step fails exactly when the mention is
      already a member, and otherwise makes it one. */
  lemma StepFailsWhen(rs: RunState, m: Mention, p: Prep)
    requires CacheInStore(rs)
    ensures LastOutcome(StepOn(rs, m, p)).Failed? <==> m.id in rs.st.members
    ensures !LastOutcome(StepOn(rs, m, p)).Failed? ==> m.id in StepOn(rs, m, p).st.members
  {
  }

  /** A mention that shares no token with any cached issue vector is never assigned. */
  lemma NoSharedTokenNotAssigned(rs: RunState, m: Mention, p: Prep)
    requires forall i | 0 <= i < |rs.cache| :: rs.cache[i].vector.Valid()
    requires forall i, k | 0 <= i < |rs.cache| && k in p.vector.counts :: k !in rs.cache[i].vector.counts
    ensures !StepOn(rs, m, p).outcomes[|StepOn(rs, m, p).outcomes| - 1].Assigned?
  {
    var scores := Scores(p.vector, rs.cache);
    ScoresAt(p.vector, rs.cache);
    forall i | 0 <= i < |rs.cache| ensures scores[i] == 0.0 {
      CosineDisjoint(p.vector, rs.cache[i].vector);
    }
    BestSpec(scores);
  }

  /** A mention whose similarity to some cached issue reaches the threshold never creates an
      issue. */
  lemma AboveThresholdNotCreated(rs: RunState, m: Mention, p: Prep, i: nat)
    requires i < |rs.cache| && CosSq(p.vector, rs.cache[i].vector) >= THRESHOLD_SQ
    ensures !StepOn(rs, m, p).outcomes[|StepOn(rs, m, p).outcomes| - 1].Created?
  {
    ScoresAt(p.vector, rs.cache);
    BestSpec(Scores(p.vector, rs.cache));
  }

  /** A new mention whose vector is identical to a cached issue's non-empty vector is attached,
      with similarity one. With several such issues it goes to the first cached one scoring
      highest, which need not be issue `i`. */
  lemma IdenticalVectorAssigned(rs: RunState, m: Mention, p: Prep, i: nat)
    requires CacheInStore(rs) && m.id !in rs.st.members
    requires i < |rs.cache| && p.vector == rs.cache[i].vector
    requires p.vector.Valid() && p.vector.keys != []
    ensures LastOutcome(StepOn(rs, m, p)).Assigned?
    ensures Best(Scores(p.vector, rs.cache)).score >= 1.0
  {
    CosineSelf(p.vector);
    assert THRESHOLD_SQ <= 1.0;
    AboveThresholdNotCreated(rs, m, p, i);
    StepFailsWhen(rs, m, p);
    ScoresAt(p.vector, rs.cache);
    BestSpec(Scores(p.vector, rs.cache));
  }

  /** A new mention without tokens has similarity zero with every issue, even one with the
      same text, so it creates an issue. */
  lemma EmptyVectorCreates(rs: RunState, m: Mention, p: Prep)
    requires CacheInStore(rs) && m.id !in rs.st.members
    requires forall i | 0 <= i < |rs.cache| :: rs.cache[i].vector.Valid()
    requires p.vector.counts == map[]
    ensures LastOutcome(StepOn(rs, m, p)).Created?
  {
    NoSharedTokenNotAssigned(rs, m, p);
    StepFailsWhen(rs, m, p);
  }

  /** The loop appends one outcome per mention, the cache only grows at its end, and the
      store stays valid. */
  lemma {:induction false} RunValid(rs: RunState, ms: seq<Mention>, ps: seq<Prep>)
    requires |ps| == |ms|
    requires ValidState(rs.st) && CacheInStore(rs)
    ensures var r := RunOn(rs, ms, ps);
      && ValidState(r.st) && CacheInStore(r)
      && |r.outcomes| == |rs.outcomes| + |ms| && rs.outcomes <= r.outcomes
      && rs.cache <= r.cache
  {
    if ms != [] {
      var n := |ms| - 1;
      var r0 := RunOn(rs, ms[..n], ps[..n]);
      RunValid(rs, ms[..n], ps[..n]);
      StepValid(r0, ms[n], ps[n]);
      StepOutcomes(r0, ms[n], ps[n]);
      var r := StepOn(r0, ms[n], ps[n]);
      assert r0.outcomes[..|rs.outcomes|] == rs.outcomes;
      assert r.outcomes[..|rs.outcomes|] == r.outcomes[..|r0.outcomes|][..|rs.outcomes|];
    }
  }

  /** Issues and memberships are never overwritten, and the new memberships are those of the
      mentions. */
  lemma {:induction false} RunKeeps(rs: RunState, ms: seq<Mention>, ps: seq<Prep>)
    requires |ps| == |ms|
    requires ValidState(rs.st) && CacheInStore(rs)
    ensures var r := RunOn(rs, ms, ps);
      && (forall id | id in rs.st.issues :: id in r.st.issues && r.st.issues[id] == rs.st.issues[id])
      && (forall k | k in rs.st.members :: k in r.st.members && r.st.members[k] == rs.st.members[k])
      && MembersFrom(r.st, rs.st, ms)
  {
    if ms != [] {
      var n := |ms| - 1;
      var r0 := RunOn(rs, ms[..n], ps[..n]);
      RunKeeps(rs, ms[..n], ps[..n]);
      RunValid(rs, ms[..n], ps[..n]);
      StepKeeps(r0, ms[n], ps[n]);
      var r := StepOn(r0, ms[n], ps[n]);
      forall k | k in r.st.members ensures k in rs.st.members || exists i | 0 <= i < |ms| :: ms[i].id == k {
        if k !in r0.st.members {
          assert ms[n].id == k;
        } else if k !in rs.st.members {
          var i :| 0 <= i < n && ms[..n][i].id == k;
          assert ms[i].id == k;
        }
      }
    }
  }

  /** Mentions with distinct ids and no membership yet never fail: each one ends up a member,
      of an existing issue or of a new one. */
  lemma {:induction false} RunNoFailures(rs: RunState, ms: seq<Mention>, ps: seq<Prep>)
    requires |ps| == |ms|
    requires ValidState(rs.st) && CacheInStore(rs)
    requires forall i, j | 0 <= i < j < |ms| :: ms[i].id != ms[j].id
    requires forall i | 0 <= i < |ms| :: ms[i].id !in rs.st.members
    ensures forall i | |rs.outcomes| <= i < |RunOn(rs, ms, ps).outcomes| :: !RunOn(rs, ms, ps).outcomes[i].Failed?
    ensures forall i | 0 <= i < |ms| :: ms[i].id in RunOn(rs, ms, ps).st.members
  {
    if ms != [] {
      var n := |ms| - 1;
      RunNoFailures(rs, ms[..n], ps[..n]);
      var r0 := RunOn(rs, ms[..n], ps[..n]);
      RunValid(rs, ms[..n], ps[..n]);
      RunKeeps(rs, ms[..n], ps[..n]);
      NoFailureStep(rs, r0, ms, ms[..n], ps[n]);
    }
  }

  /** The induction step of `RunNoFailures`. */
  lemma NoFailureStep(rs: RunState, r0: RunState, ms: seq<Mention>, pre: seq<Mention>, p: Prep)
    requires ms != [] && pre == ms[..|ms| - 1] && ValidState(r0.st) && CacheInStore(r0)
    requires |rs.outcomes| <= |r0.outcomes|
    requires forall i, j | 0 <= i < j < |ms| :: ms[i].id != ms[j].id
    requires forall i | 0 <= i < |ms| :: ms[i].id !in rs.st.members
    requires MembersFrom(r0.st, rs.st, pre)
    requires forall i | |rs.outcomes| <= i < |r0.outcomes| :: !r0.outcomes[i].Failed?
    requires forall i | 0 <= i < |pre| :: pre[i].id in r0.st.members
    ensures var r := StepOn(r0, ms[|ms| - 1], p);
      && (forall i | |rs.outcomes| <= i < |r.outcomes| :: !r.outcomes[i].Failed?)
      && (forall i | 0 <= i < |ms| :: ms[i].id in r.st.members)
  {
    var n := |ms| - 1;
    var m := ms[n];
    StepOutcomes(r0, m, p);
    StepKeeps(r0, m, p);
    StepFailsWhen(r0, m, p);
    var r := StepOn(r0, m, p);
    forall i | |rs.outcomes| <= i < |r.outcomes| ensures !r.outcomes[i].Failed? {
      if i < |r0.outcomes| {
        assert r.outcomes[..|r0.outcomes|][i] == r0.outcomes[i];
      } else {
        assert r.outcomes[i] == LastOutcome(r);
      }
    }
    forall i | 0 <= i < |ms| ensures ms[i].id in r.st.members {
      if i < n {
        assert pre[i] == ms[i];
      }
    }
  }

  function NumAssigned(os: seq<Outcome>): nat {
    if os == [] then 0 else NumAssigned(os[..|os| - 1]) + (if os[|os| - 1].Assigned? then 1 else 0)
  }

  function NumCreated(os: seq<Outcome>): nat {
    if os == [] then 0 else NumCreated(os[..|os| - 1]) + (if os[|os| - 1].Created? then 1 else 0)
  }

  function NumFailed(os: seq<Outcome>): nat {
    if os == [] then 0 else NumFailed(os[..|os| - 1]) + (if os[|os| - 1].Failed? then 1 else 0)
  }

  /** Every outcome is counted exactly once. */
  lemma {:induction false} TallyTotal(os: seq<Outcome>)
    ensures NumAssigned(os) + NumCreated(os) + NumFailed(os) == |os|
  {
    if os != [] {
      TallyTotal(os[..|os| - 1]);
    }
  }
}
