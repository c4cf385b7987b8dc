/** The per-brand body of `clusterMentionsForOrg` (lib/cluster/issues.ts): the in-run cache of
    issue vectors, the per-mention assignment loop with its counters, and the status
    recompute, as methods on the store proved against the loop specification in `Clustering`. */
module ClusterRun {
  import opened Seqs
  import opened Mentions
  import opened Tokens
  import opened Similarity
  import opened Summary
  import opened IssueStore
  import opened Clustering

  /** At most this many unclustered mentions are processed per run. */
  const MENTION_CAP: nat := 200
  /** At most this many recent issues are cached, and have their status recomputed. */
  const ISSUE_CAP: nat := 50

  /** A recent issue of the brand, with what `buildIssueVector` reads for it (`None` when the
      lookup finds nothing). */
  datatype LoadedIssue = LoadedIssue(id: nat, record: Option<IssueRecord>)

  /** The counters one brand's run reports. */
  datatype ClusterResult = ClusterResult(brandId: nat, scannedMentions: nat, assignedToExisting: nat, createdIssues: nat, errors: nat)

  /** The cache before the first mention: one vector per loaded issue, in load order. */
  function InitialCache(loaded: seq<LoadedIssue>): (c: seq<CacheEntry>)
    ensures |c| == |loaded|
  {
    seq(|loaded|, i requires 0 <= i < |loaded| => CacheEntry(loaded[i].id, BuildIssueVector(loaded[i].record)))
  }

  predicate VectorsValid(cache: seq<CacheEntry>) {
    forall i | 0 <= i < |cache| :: cache[i].vector.Valid()
  }

  predicate DistinctIds(ms: seq<Mention>) {
    forall i, j | 0 <= i < j < |ms| :: ms[i].id != ms[j].id
  }

  /** `buildIssueVector` on the issue it looked up: the texts are collected one by one, then
      joined and counted. */
  method IssueVector(rec: Option<IssueRecord>) returns (v: TokenMap)
    ensures v == BuildIssueVector(rec) && v.Valid()
  {
    if rec.None? {
      v := TokenMap([], map[]);
    } else {
      var r := rec.value;
      var texts := [r.title];
      if r.summary.Some? && r.summary.value != "" {
        texts := texts + [r.summary.value];
      }
      ghost var head := texts;
      for i := 0 to |r.mentionTexts|
        invariant texts == head + r.mentionTexts[..i]
      {
        texts := texts + [r.mentionTexts[i]];
        assert r.mentionTexts[..i + 1] == r.mentionTexts[..i] + [r.mentionTexts[i]];
      }
      assert r.mentionTexts[..|r.mentionTexts|] == r.mentionTexts;
      v := ToTf(Tokenize(Join(texts, " ")));
    }
    BuildIssueVectorSpec(rec);
  }

  /** The selection loop over the cache, in insertion order. */
  method BestMatch(mv: TokenMap, cache: seq<CacheEntry>) returns (c: Choice)
    requires mv.Valid() && VectorsValid(cache)
    ensures c == Best(Scores(mv, cache))
  {
    ghost var scores := Scores(mv, cache);
    ScoresAt(mv, cache);
    var bestIndex: Option<nat> := None;
    var bestScore := 0.0;
    for j := 0 to |cache|
      invariant Choice(bestIndex, bestScore) == Best(scores[..j])
    {
      var s := Cosine(mv, cache[j].vector);
      BestPrefix(scores, j);
      if s > bestScore {
        bestIndex, bestScore := Some(j), s;
      }
    }
    assert scores[..|cache|] == scores;
    c := Choice(bestIndex, bestScore);
  }

  /** `p` holds what the loop computes from `m`: its vector, and the title, summary and vector of
      the issue it would create. */
  predicate PrepOf(p: Prep, m: Mention) {
    && p.vector == Tf(Tokenize(m.text))
    && p.title == IssueTitle(TopKeywords(m.text, TITLE_KEYWORDS)) && p.summary == Summarize(m.text, SUMMARY_LEN)
    && p.newVector == Tf(Tokenize(p.title + " " + p.summary + " " + m.text))
  }

  lemma PrepsAt(ms: seq<Mention>, i: nat)
    requires i < |ms|
    ensures PrepOf(Preps(ms)[i], ms[i])
  {
    MapAt(Prepare, ms, i);
  }

  lemma VectorsValidSnoc(cache: seq<CacheEntry>, e: CacheEntry)
    requires VectorsValid(cache) && e.vector.Valid()
    ensures VectorsValid(cache + [e])
  {
    assert forall i | 0 <= i < |cache| :: (cache + [e])[i] == cache[i];
  }

  /** How one mention moves the `updatedAt` stamps (`u`, on the logical clock `c`): an attach
      or a create stamps its issue with the next tick, so it becomes the most recently updated
      issue; a failure changes no stamp an issue had before. */
  predicate StepStamps(u: map<nat, nat>, c: nat, u': map<nat, nat>, c': nat, o: Outcome) {
    && (!o.Failed? ==> c' == c + 1 && u' == u[o.issue := c'])
    && (o.Created? ==> o.issue !in u)
    && (o.Failed? ==> c <= c' && forall id | id in u :: id in u' && u'[id] == u[id])
  }

  /** What a run of the loop did to the stamps since the clock read `c0`: every issue the run
      attached a mention to, or created, was stamped after `c0`, and every other issue keeps
      its stamp. */
  predicate TouchedAfter(u0: map<nat, nat>, c0: nat, u: map<nat, nat>, c: nat, os: seq<Outcome>) {
    && c0 <= c
    && (forall id | id in u0 :: id in u && (u[id] == u0[id] || Assigned(id) in os))
    && (forall i | 0 <= i < |os| && !os[i].Failed? :: os[i].issue in u && c0 < u[os[i].issue])
  }

  /** After an attach or a create, the stamped issue is ahead of every other issue in
      `updatedAt` order, the order the recent-issue queries sort by. */
  lemma StampedIsNewest(u: map<nat, nat>, c: nat, u': map<nat, nat>, c': nat, o: Outcome)
    requires StepStamps(u, c, u', c', o) && !o.Failed?
    requires forall id | id in u :: u[id] <= c
    ensures o.issue in u'
    ensures forall id | id in u' && id != o.issue :: u'[id] < u'[o.issue]
  {
  }

  /** A create stamps a fresh issue, whether or not the attach that follows succeeds. */
  lemma CreateStamps(u: map<nat, nat>, c: nat, n: nat, o: Outcome)
    requires n !in u && (o == Created(n) || o.Failed?)
    ensures StepStamps(u, c, u[n := c + 1], c + 1, o)
  {
  }

  lemma TouchedAfterStep(u0: map<nat, nat>, c0: nat, u: map<nat, nat>, c: nat, os: seq<Outcome>,
                         u': map<nat, nat>, c': nat, o: Outcome)
    requires TouchedAfter(u0, c0, u, c, os) && StepStamps(u, c, u', c', o)
    ensures TouchedAfter(u0, c0, u', c', os + [o])
  {
  }

  /** The body of the `try` for one mention: attach it to the best cached issue or create an
      issue for it; `Failed` is the `catch`. */
  method ProcessMention(store: Store, cache: seq<CacheEntry>, ghost outcomes: seq<Outcome>, m: Mention, ghost p: Prep)
    returns (cache': seq<CacheEntry>, o: Outcome)
    requires store.Valid() && VectorsValid(cache) && PrepOf(p, m)
    modifies store
    ensures store.Valid() && VectorsValid(cache')
    ensures StepOn(RunState(old(store.State()), cache, outcomes), m, p) == RunState(store.State(), cache', outcomes + [o])
    ensures StepStamps(old(store.updatedAt), old(store.clock), store.updatedAt, store.clock, o)
  {
    var mv := ToTf(Tokenize(m.text));
    var best := BestMatch(mv, cache);
    ghost var u, c, n := store.updatedAt, store.clock, store.nextId;
    if best.index.Some? && best.score >= THRESHOLD_SQ {
      o := AttachToBest(store, cache, outcomes, m, p, best);
      cache' := cache;
      assert StepStamps(u, c, store.updatedAt, store.clock, o);
    } else {
      cache', o := CreateFor(store, cache, outcomes, m, p, best);
      CreateStamps(u, c, n, o);
      assert StepStamps(u, c, store.updatedAt, store.clock, o);
    }
  }

  /** The branch where the best cached issue reaches the threshold: the mention is attached to
      it and the issue touched, or the attach fails and nothing changes. */
  method AttachToBest(store: Store, cache: seq<CacheEntry>, ghost outcomes: seq<Outcome>, m: Mention, ghost p: Prep, best: Choice)
    returns (o: Outcome)
    requires store.Valid() && best == Best(Scores(p.vector, cache))
    requires best.index.Some? && best.score >= THRESHOLD_SQ
    modifies store
    ensures store.Valid()
    ensures StepOn(RunState(old(store.State()), cache, outcomes), m, p) == RunState(store.State(), cache, outcomes + [o])
    ensures o.Assigned? ==> store.clock == old(store.clock) + 1 && store.updatedAt == old(store.updatedAt)[o.issue := store.clock]
    ensures o.Failed? ==> store.updatedAt == old(store.updatedAt) && store.clock == old(store.clock)
    ensures !o.Created?
  {
    var id := cache[best.index.value].id;
    var ok := store.AttachMention(id, m);
    if ok {
      store.Touch(id);
      o := Assigned(id);
    } else {
      o := Failed;
    }
  }

  /** The branch where no cached issue reaches the threshold: a new issue is created with the
      mention's keyword title and summary; when the attach succeeds the issue's vector joins
      the cache, and otherwise the created issue stays. */
  method CreateFor(store: Store, cache: seq<CacheEntry>, ghost outcomes: seq<Outcome>, m: Mention, ghost p: Prep, ghost best: Choice)
    returns (cache': seq<CacheEntry>, o: Outcome)
    requires store.Valid() && VectorsValid(cache) && PrepOf(p, m)
    requires best == Best(Scores(p.vector, cache)) && !(best.index.Some? && best.score >= THRESHOLD_SQ)
    modifies store
    ensures store.Valid() && VectorsValid(cache')
    ensures StepOn(RunState(old(store.State()), cache, outcomes), m, p) == RunState(store.State(), cache', outcomes + [o])
    ensures store.clock == old(store.clock) + 1 && store.updatedAt == old(store.updatedAt)[old(store.nextId) := store.clock]
    ensures old(store.nextId) !in old(store.updatedAt) && (o == Created(old(store.nextId)) || o == Failed)
  {
    var kw := TopKeywords(m.text, TITLE_KEYWORDS);
    var title := if |kw| > 0 then Join(kw, " ") else "New issue";
    var summary := Summarize(m.text, SUMMARY_LEN);
    var id := store.Create(title, summary);
    var ok := store.AttachMention(id, m);
    if ok {
      var nv := ToTf(Tokenize(title + " " + summary + " " + m.text));
      VectorsValidSnoc(cache, CacheEntry(id, nv));
      cache' := cache + [CacheEntry(id, nv)];
      o := Created(id);
    } else {
      cache' := cache;
      o := Failed;
    }
  }

  /** One more mention: one more step of the loop specification. */
  lemma RunOnSnoc(rs: RunState, ms: seq<Mention>, ps: seq<Prep>, i: nat)
    requires |ps| == |ms| && i < |ms|
    ensures RunOn(rs, ms[..i + 1], ps[..i + 1]) == StepOn(RunOn(rs, ms[..i], ps[..i]), ms[i], ps[i])
  {
    assert ms[..i + 1][..i] == ms[..i];
    assert ps[..i + 1][..i] == ps[..i];
  }

  lemma TallySnoc(os: seq<Outcome>, o: Outcome)
    ensures NumAssigned(os + [o]) == NumAssigned(os) + (if o.Assigned? then 1 else 0)
    ensures NumCreated(os + [o]) == NumCreated(os) + (if o.Created? then 1 else 0)
    ensures NumFailed(os + [o]) == NumFailed(os) + (if o.Failed? then 1 else 0)
  {
    assert (os + [o])[..|os|] == os;
  }

  /** No failed outcome, no error counted. */
  lemma {:induction false} NoFailedCount(os: seq<Outcome>)
    requires forall i | 0 <= i < |os| :: !os[i].Failed?
    ensures NumFailed(os) == 0
  {
    if os != [] {
      NoFailedCount(os[..|os| - 1]);
    }
  }

  /** Builds the cache of the loaded issues' vectors, in load order. */
  method LoadCache(loaded: seq<LoadedIssue>) returns (cache: seq<CacheEntry>)
    ensures cache == InitialCache(loaded) && VectorsValid(cache)
  {
    cache := [];
    for i := 0 to |loaded|
      invariant cache == InitialCache(loaded)[..i] && VectorsValid(cache)
    {
      var v := IssueVector(loaded[i].record);
      cache := cache + [CacheEntry(loaded[i].id, v)];
    }
    assert InitialCache(loaded)[..|loaded|] == InitialCache(loaded);
  }

  /** `assigned += 1` in the attach branch, `created += 1` in the create branch, `errors += 1`
      in the `catch`. */
  method CountOutcome(ghost os: seq<Outcome>, o: Outcome, assigned0: nat, created0: nat, errors0: nat)
    returns (assignedCount: nat, createdCount: nat, errorCount: nat)
    requires assigned0 == NumAssigned(os) && created0 == NumCreated(os) && errors0 == NumFailed(os)
    ensures assignedCount == NumAssigned(os + [o]) && createdCount == NumCreated(os + [o])
    ensures errorCount == NumFailed(os + [o])
  {
    TallySnoc(os, o);
    assignedCount, createdCount, errorCount := assigned0, created0, errors0;
    if o.Assigned? {
      assignedCount := assignedCount + 1;
    } else if o.Created? {
      createdCount := createdCount + 1;
    } else {
      errorCount := errorCount + 1;
    }
  }

  /** The per-mention loop: the store and the counters end as the loop specification says. */
  method AssignMentions(store: Store, cache0: seq<CacheEntry>, mentions: seq<Mention>, ghost ps: seq<Prep>)
    returns (assignedCount: nat, createdCount: nat, errorCount: nat)
    requires store.Valid() && VectorsValid(cache0)
    requires ps == Preps(mentions)
    modifies store
    ensures store.Valid()
    ensures var r := RunOn(RunState(old(store.State()), cache0, []), mentions, ps);
      && store.State() == r.st
      && assignedCount == NumAssigned(r.outcomes) && createdCount == NumCreated(r.outcomes)
      && errorCount == NumFailed(r.outcomes)
      && TouchedAfter(old(store.updatedAt), old(store.clock), store.updatedAt, store.clock, r.outcomes)
  {
    ghost var rs0 := RunState(store.State(), cache0, []);
    ghost var u0, c0 := store.updatedAt, store.clock;
    var cache := cache0;
    ghost var outcomes: seq<Outcome> := [];
    assignedCount, createdCount, errorCount := 0, 0, 0;
    for i := 0 to |mentions|
      invariant store.Valid() && VectorsValid(cache)
      invariant RunOn(rs0, mentions[..i], ps[..i]) == RunState(store.State(), cache, outcomes)
      invariant assignedCount == NumAssigned(outcomes) && createdCount == NumCreated(outcomes)
      invariant errorCount == NumFailed(outcomes)
      invariant TouchedAfter(u0, c0, store.updatedAt, store.clock, outcomes)
    {
      PrepsAt(mentions, i);
      ghost var u, c := store.updatedAt, store.clock;
      var cache', o := ProcessMention(store, cache, outcomes, mentions[i], ps[i]);
      TouchedAfterStep(u0, c0, u, c, outcomes, store.updatedAt, store.clock, o);
      RunOnSnoc(rs0, mentions, ps, i);
      assignedCount, createdCount, errorCount := CountOutcome(outcomes, o, assignedCount, createdCount, errorCount);
      cache, outcomes := cache', outcomes + [o];
    }
    assert mentions[..|mentions|] == mentions && ps[..|mentions|] == ps;
  }

  /** One brand's clustering pass over its unclustered mentions (newest first, at most
      `MENTION_CAP`) and its recent issues (at most `ISSUE_CAP`, distinct), followed by the
      status recompute over the issues `recent` that the store lists as most recently updated
      once the loop is done, at time `now`: the store ends as the loop specification and the
      recompute say, the issues the loop attached to or created are stamped after every stamp
      before the pass, every mention is counted once, and mentions with distinct ids never
      produce an error. */
  method ClusterBrand(store: Store, brandId: nat, mentions: seq<Mention>, loaded: seq<LoadedIssue>, recent: seq<nat>, now: int)
    returns (res: ClusterResult)
    requires store.Valid()
    requires |mentions| <= MENTION_CAP && |loaded| <= ISSUE_CAP && |recent| <= ISSUE_CAP
    requires forall i | 0 <= i < |mentions| :: mentions[i].id !in store.members
    requires forall i | 0 <= i < |loaded| :: loaded[i].id in store.issues
    requires forall i, j | 0 <= i < j < |loaded| :: loaded[i].id != loaded[j].id
    requires forall i | 0 <= i < |recent| :: recent[i] in Run(RunState(store.State(), InitialCache(loaded), []), mentions).st.issues
    modifies store
    ensures store.Valid()
    ensures var r := Run(RunState(old(store.State()), InitialCache(loaded), []), mentions);
      && store.State() == Recomputed(r.st, recent, now)
      && res == ClusterResult(brandId, |mentions|, NumAssigned(r.outcomes), NumCreated(r.outcomes), NumFailed(r.outcomes))
      && TouchedAfter(old(store.updatedAt), old(store.clock), store.updatedAt, store.clock, r.outcomes)
    ensures res.assignedToExisting + res.createdIssues + res.errors == res.scannedMentions
    ensures DistinctIds(mentions) ==> res.errors == 0
  {
    var scanned := |mentions|;
    var cache := LoadCache(loaded);
    ghost var rs0 := RunState(store.State(), cache, []);
    var assignedCount, createdCount, errorCount := AssignMentions(store, cache, mentions, Preps(mentions));
    res := ClusterResult(brandId, scanned, assignedCount, createdCount, errorCount);
    RunTallies(rs0, mentions);
    RecomputeStatuses(store, recent, now);
  }

  /** The counters of a run from an empty outcome list add up to the number of mentions, and
      are error-free when the mention ids are distinct and unclustered. */
  lemma RunTallies(rs0: RunState, ms: seq<Mention>)
    requires ValidState(rs0.st) && CacheInStore(rs0) && rs0.outcomes == []
    requires forall i | 0 <= i < |ms| :: ms[i].id !in rs0.st.members
    ensures var os := Run(rs0, ms).outcomes;
      && NumAssigned(os) + NumCreated(os) + NumFailed(os) == |ms|
      && (DistinctIds(ms) ==> NumFailed(os) == 0)
  {
    var os := Run(rs0, ms).outcomes;
    RunValid(rs0, ms, Preps(ms));
    TallyTotal(os);
    if DistinctIds(ms) {
      RunNoFailures(rs0, ms, Preps(ms));
      NoFailedCount(os);
    }
  }

  /** The status an issue's window counts give at time `now`. */
  function StatusAt(st: StoreState, issue: nat, now: int): Status {
    StatusFromCounts(CountSince(st, issue, now - HOUR_MS), CountSince(st, issue, now - DAY_MS))
  }

  /** The store after the status recompute of the issues `recent`. */
  function Recomputed(st: StoreState, recent: seq<nat>, now: int): StoreState {
    st.(issues := map id | id in st.issues ::
      if id in recent then st.issues[id].(status := StatusAt(st, id, now)) else st.issues[id])
  }

  /** The recompute changes only the status of the recomputed issues: titles, summaries, the
      other issues, the memberships and the id counter are kept, and a recomputed issue's
      status depends on its window counts only, never on its previous status. */
  lemma RecomputedKeeps(st: StoreState, recent: seq<nat>, now: int)
    ensures var r := Recomputed(st, recent, now);
      && r.members == st.members && r.nextId == st.nextId && r.issues.Keys == st.issues.Keys
      && (forall id | id in st.issues :: r.issues[id].title == st.issues[id].title && r.issues[id].summary == st.issues[id].summary)
      && (forall id | id in st.issues && id !in recent :: r.issues[id] == st.issues[id])
      && (forall id | id in st.issues && id in recent :: r.issues[id].status == StatusAt(st, id, now))
  {
  }

  /** Recomputing twice at the same time gives the same store: the status is a function of the
      memberships, which the recompute does not touch. */
  lemma RecomputedIdempotent(st: StoreState, recent: seq<nat>, now: int)
    ensures Recomputed(Recomputed(st, recent, now), recent, now) == Recomputed(st, recent, now)
  {
    var r := Recomputed(st, recent, now);
    forall id | id in st.issues
      ensures StatusAt(r, id, now) == StatusAt(st, id, now)
    {
      assert Window(r, id, now - HOUR_MS) == Window(st, id, now - HOUR_MS);
      assert Window(r, id, now - DAY_MS) == Window(st, id, now - DAY_MS);
    }
  }

  /** A recomputed issue is DYING exactly when none of its mentions is from the last day, and
      ACTIVE or STABILIZING only with at least five mentions from the last day. */
  lemma RecomputedStatus(st: StoreState, recent: seq<nat>, now: int, id: nat)
    requires id in st.issues && id in recent
    ensures var s := Recomputed(st, recent, now).issues[id].status;
      && (s == Dying <==> CountSince(st, id, now - DAY_MS) == 0)
      && (s in {Active, Stabilizing} ==> CountSince(st, id, now - DAY_MS) >= 5)
  {
    CountSinceMonotone(st, id, now - HOUR_MS, now - DAY_MS);
    StatusOfNestedCounts(CountSince(st, id, now - HOUR_MS), CountSince(st, id, now - DAY_MS));
  }

  /** One more recomputed issue, its status taken from the current store's window counts. */
  lemma RecomputedPrefix(st0: StoreState, recent: seq<nat>, i: nat, now: int)
    requires i < |recent| && recent[i] in st0.issues
    ensures var st := Recomputed(st0, recent[..i], now); var id := recent[i];
      Recomputed(st0, recent[..i + 1], now) ==
        st.(issues := st.issues[id := st.issues[id].(status := StatusFromCounts(CountSince(st, id, now - HOUR_MS), CountSince(st, id, now - DAY_MS)))])
  {
    var st := Recomputed(st0, recent[..i], now);
    var id := recent[i];
    assert Window(st, id, now - HOUR_MS) == Window(st0, id, now - HOUR_MS);
    assert Window(st, id, now - DAY_MS) == Window(st0, id, now - DAY_MS);
    assert forall x :: x in recent[..i + 1] <==> x in recent[..i] || x == id;
  }

  /** The status recompute over the brand's recent issues (at most `ISSUE_CAP`), at time `now`. */
  method RecomputeStatuses(store: Store, recent: seq<nat>, now: int)
    requires store.Valid()
    requires |recent| <= ISSUE_CAP
    requires forall i | 0 <= i < |recent| :: recent[i] in store.issues
    modifies store
    ensures store.Valid()
    ensures store.State() == Recomputed(old(store.State()), recent, now)
    ensures store.updatedAt == old(store.updatedAt) && store.clock == old(store.clock)
  {
    ghost var st0 := store.State();
    for i := 0 to |recent|
      invariant store.Valid()
      invariant store.State() == Recomputed(st0, recent[..i], now)
      invariant store.updatedAt == old(store.updatedAt) && store.clock == old(store.clock)
    {
      var id := recent[i];
      var last1h := CountSince(store.State(), id, now - HOUR_MS);
      var last24h := CountSince(store.State(), id, now - DAY_MS);
      RecomputedPrefix(st0, recent, i, now);
      store.SetStatus(id, StatusFromCounts(last1h, last24h));
    }
    assert recent[..|recent|] == recent;
  }
}
