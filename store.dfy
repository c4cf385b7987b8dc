/** The persistent state the clustering engine reads and writes: issues and the
    mention-to-issue memberships. Only the writes the engine issues are modelled. */
module IssueStore {
  import opened Mentions

  datatype Status = Emerging | Active | Stabilizing | Dying

  datatype Issue = Issue(title: string, summary: string, status: Status)

  /** A membership row, with the creation time of its mention (what the window counts filter on). */
  datatype Membership = Membership(issue: nat, mentionCreatedAt: int)

  /** The store as a value: issues by id, memberships by mention id, and the next issue id. */
  datatype StoreState = StoreState(issues: map<nat, Issue>, members: map<nat, Membership>, nextId: nat)

  /** Every issue id was handed out, and every membership names an existing issue. */
  predicate ValidState(st: StoreState) {
    && (forall id | id in st.issues :: id < st.nextId)
    && (forall k | k in st.members :: st.members[k].issue in st.issues)
  }

  /** `prisma.issue.create`: a new EMERGING issue under a fresh id. */
  function CreateIssue(st: StoreState, title: string, summary: string): StoreState {
    st.(issues := st.issues[st.nextId := Issue(title, summary, Emerging)], nextId := st.nextId + 1)
  }

  /** `prisma.issueMention.create` succeeds when the issue exists and the mention has no
      membership yet. */
  predicate CanAttach(st: StoreState, issue: nat, mention: Mention) {
    issue in st.issues && mention.id !in st.members
  }

  function Attach(st: StoreState, issue: nat, mention: Mention): StoreState {
    st.(members := st.members[mention.id := Membership(issue, mention.createdAt)])
  }

  /** The number of mentions of `issue` created at or after `cutoff` (`issueMention.count`). */
  function CountSince(st: StoreState, issue: nat, cutoff: int): nat {
    |Window(st, issue, cutoff)|
  }

  /** The mentions of `issue` created at or after `cutoff`. */
  function Window(st: StoreState, issue: nat, cutoff: int): set<nat> {
    set k | k in st.members && st.members[k].issue == issue && st.members[k].mentionCreatedAt >= cutoff
  }

  /** Creating an issue and attaching to an existing one keep the store valid. */
  lemma WritesKeepValid(st: StoreState, title: string, summary: string, issue: nat, mention: Mention)
    requires ValidState(st)
    ensures ValidState(CreateIssue(st, title, summary))
    ensures st.nextId !in st.issues
    ensures CanAttach(st, issue, mention) ==> ValidState(Attach(st, issue, mention))
  {
  }

  /** A later cutoff counts no more mentions: the one-hour count never exceeds the day count. */
  lemma CountSinceMonotone(st: StoreState, issue: nat, later: int, earlier: int)
    requires earlier <= later
    ensures CountSince(st, issue, later) <= CountSince(st, issue, earlier)
  {
    SubsetCard(Window(st, issue, later), Window(st, issue, earlier));
  }

  lemma SubsetCard(a: set<nat>, b: set<nat>)
    requires a <= b
    ensures |a| <= |b|
  {
    assert b == a + (b - a);
  }

  /** The issues and memberships, updated in place. */
  class Store {
    var issues: map<nat, Issue>
    var members: map<nat, Membership>
    var nextId: nat
    /** `updatedAt` of every issue, as a logical clock. */
    ghost var updatedAt: map<nat, nat>
    ghost var clock: nat

    function State(): StoreState
      reads this
    {
      StoreState(issues, members, nextId)
    }

    ghost predicate Valid()
      reads this
    {
      && ValidState(State())
      && updatedAt.Keys == issues.Keys
      && (forall id | id in updatedAt :: updatedAt[id] <= clock)
    }

    constructor ()
      ensures Valid() && State() == StoreState(map[], map[], 0)
    {
      issues, members, nextId := map[], map[], 0;
      updatedAt, clock := map[], 0;
    }

    /** `prisma.issue.create` with status EMERGING. */
    method Create(title: string, summary: string) returns (id: nat)
      requires Valid()
      modifies this
      ensures Valid()
      ensures id == old(nextId) && id !in old(issues) && clock == old(clock) + 1
      ensures State() == CreateIssue(old(State()), title, summary)
      ensures updatedAt == old(updatedAt)[id := clock]
    {
      id := nextId;
      issues := issues[id := Issue(title, summary, Emerging)];
      nextId := nextId + 1;
      clock := clock + 1;
      updatedAt := updatedAt[id := clock];
    }

    /** `prisma.issueMention.create`: fails, changing nothing, when the issue does not exist or
        the mention already belongs to an issue. */
    method AttachMention(issue: nat, mention: Mention) returns (ok: bool)
      requires Valid()
      modifies this
      ensures Valid()
      ensures ok == CanAttach(old(State()), issue, mention)
      ensures State() == if ok then Attach(old(State()), issue, mention) else old(State())
      ensures updatedAt == old(updatedAt) && clock == old(clock)
    {
      ok := issue in issues && mention.id !in members;
      if ok {
        members := members[mention.id := Membership(issue, mention.createdAt)];
      }
    }

    /** `prisma.issue.update` of `updatedAt` to now. */
    method Touch(issue: nat)
      requires Valid() && issue in issues
      modifies this
      ensures Valid()
      ensures State() == old(State())
      ensures clock == old(clock) + 1 && updatedAt == old(updatedAt)[issue := clock]
    {
      clock := clock + 1;
      updatedAt := updatedAt[issue := clock];
    }

    /** `prisma.issue.update` of `status`. */
    method SetStatus(issue: nat, status: Status)
      requires Valid() && issue in issues
      modifies this
      ensures Valid()
      ensures State() == old(State()).(issues := old(issues)[issue := old(issues)[issue].(status := status)])
      ensures updatedAt == old(updatedAt) && clock == old(clock)
    {
      issues := issues[issue := issues[issue].(status := status)];
    }
  }
}
