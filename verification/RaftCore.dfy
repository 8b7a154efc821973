/** The protocol behind the node code, with the history a proof needs: who voted for
    whom, the log each term's leader has written, which prefix each server has
    acknowledged to each leader, and how far each leader has committed. A handler of
    a real node is a composition of the small steps defined here. */
module RaftCore {
  import opened Basics
  import opened RaftTypes

  /** One server in one term. */
  datatype Slot = Slot(node: NodeId, term: nat)

  datatype Member = Member(term: nat, role: Role, voted: Option<NodeId>, log: Log, commit: nat)

  datatype Core = Core(
    servers: set<NodeId>,
    members: map<NodeId, Member>,
    votes: map<Slot, NodeId>,     // the candidate each server chose in each term
    leaders: map<nat, NodeId>,    // the winner of each decided term
    logs: map<nat, Log>,          // everything the leader of a term has had in its log
    acks: map<Slot, nat>,         // the longest prefix of logs[term] a server has confirmed
    commits: map<nat, nat>)       // the commit index a leader reached by counting its own entries

  // ---------------------------------------------------------------- quorums

  ghost predicate Quorum(c: Core, q: set<NodeId>) {
    q <= c.servers && |q| >= |c.servers| / 2 + 1
  }

  lemma QuorumsMeet(c: Core, a: set<NodeId>, b: set<NodeId>) returns (n: NodeId)
    requires Quorum(c, a) && Quorum(c, b)
    ensures n in a && n in b
  {
    if a * b == {} {
      assert |a + b| == |a| + |b|;
      SubsetSize(a + b, c.servers);
      assert false;
    }
    n :| n in a * b;
  }

  lemma SubsetSize<T>(a: set<T>, b: set<T>)
    requires a <= b
    ensures |a| <= |b|
  {
    assert b == a + (b - a);
  }

  ghost function Voters(c: Core, t: nat, n: NodeId): set<NodeId> {
    set v | v in c.servers && Slot(v, t) in c.votes && c.votes[Slot(v, t)] == n
  }

  // ------------------------------------------------- elections and log shape

  ghost predicate SlotOk(c: Core, s: Slot)
    requires s in c.votes
  {
    && s.node in c.members
    && c.votes[s] in c.members
    && s.term <= c.members[s.node].term
    && s.term <= c.members[c.votes[s]].term
    && (s.term == c.members[s.node].term ==> c.members[s.node].voted == Some(c.votes[s]))
  }

  ghost predicate VotedOk(c: Core, n: NodeId)
    requires n in c.members
  {
    var m := c.members[n];
    m.voted.Some? ==> Slot(n, m.term) in c.votes && c.votes[Slot(n, m.term)] == m.voted.value
  }

  ghost predicate VotesOk(c: Core) {
    && (forall s {:trigger SlotOk(c, s)} :: s in c.votes ==> SlotOk(c, s))
    && (forall n {:trigger VotedOk(c, n)} :: n in c.members ==> VotedOk(c, n))
  }

  ghost predicate LeaderOk(c: Core, t: nat)
    requires t in c.leaders
  {
    && t >= 1
    && c.leaders[t] in c.members
    && t <= c.members[c.leaders[t]].term
    && Quorum(c, Voters(c, t, c.leaders[t]))
  }

  ghost predicate LeadersOk(c: Core) {
    && c.leaders.Keys == c.logs.Keys == c.commits.Keys
    && (forall t {:trigger LeaderOk(c, t)} :: t in c.leaders ==> LeaderOk(c, t))
  }

  ghost predicate RoleOk(c: Core, n: NodeId)
    requires n in c.members && c.leaders.Keys == c.logs.Keys
  {
    var m := c.members[n];
    match m.role
    case Follower => true
    case Candidate =>
      && Slot(n, m.term) in c.votes && c.votes[Slot(n, m.term)] == n
      && m.term >= 1
      && !(m.term in c.leaders && c.leaders[m.term] == n)
    case Leader =>
      && m.term in c.leaders && c.leaders[m.term] == n
      && m.log == c.logs[m.term]
  }

  /** Position k of a log carries the entry that the leader of its term wrote there,
      after the same earlier entries. */
  ghost predicate EntryOk(c: Core, l: Log, k: nat, t: nat)
    requires k < |l|
  {
    && l[k].index == k + 1
    && 1 <= l[k].term <= t
    && l[k].term in c.logs
    && k < |c.logs[l[k].term]|
    && l[..k + 1] == c.logs[l[k].term][..k + 1]
  }

  ghost predicate LogOk(c: Core, l: Log, t: nat) {
    forall k {:trigger EntryOk(c, l, k, t)} :: 0 <= k < |l| ==> EntryOk(c, l, k, t)
  }

  ghost predicate LogsOk(c: Core) {
    && (forall n :: n in c.members ==> LogOk(c, c.members[n].log, c.members[n].term))
    && (forall t :: t in c.logs ==> LogOk(c, c.logs[t], t))
  }

  ghost predicate RolesOk(c: Core)
    requires c.leaders.Keys == c.logs.Keys
  {
    forall n {:trigger RoleOk(c, n)} :: n in c.members ==> RoleOk(c, n)
  }

  /** What every step keeps with no premise at all: one vote per server and term, one
      leader per term, and logs that only repeat what leaders wrote. */
  ghost predicate Base(c: Core) {
    && c.members.Keys == c.servers
    && VotesOk(c)
    && LeadersOk(c)
    && RolesOk(c)
    && LogsOk(c)
  }

  // ------------------------------------------------------------- small steps

  function SetMember(c: Core, n: NodeId, m: Member): Core {
    c.(members := c.members[n := m])
  }

  /** Step down into term t (become_follower_locked). Also a restart, with t the current term. */
  function Adopt(c: Core, v: NodeId, t: nat): Core
    requires v in c.members
  {
    var m := c.members[v];
    SetMember(c, v, if t > m.term then m.(term := t, voted := None, role := Follower) else m.(role := Follower))
  }

  function Vote(c: Core, v: NodeId, n: NodeId): Core
    requires v in c.members
  {
    var m := c.members[v];
    SetMember(c, v, m.(voted := Some(n))).(votes := c.votes[Slot(v, m.term) := n])
  }

  function Campaign(c: Core, n: NodeId): Core
    requires n in c.members
  {
    var m := c.members[n];
    SetMember(c, n, m.(term := m.term + 1, voted := Some(n), role := Candidate))
      .(votes := c.votes[Slot(n, m.term + 1) := n])
  }

  function Raised(acks: map<Slot, nat>, s: Slot, k: nat): map<Slot, nat> {
    acks[s := if s in acks then Max(acks[s], k) else k]
  }

  /** Win the current term: the leader's log is the candidate's log plus one entry. */
  function Win(c: Core, n: NodeId, e: LogEntry): Core
    requires n in c.members
  {
    var m := c.members[n];
    var l := m.log + [e];
    SetMember(c, n, m.(role := Leader, log := l))
      .(leaders := c.leaders[m.term := n], logs := c.logs[m.term := l],
        commits := c.commits[m.term := 0], acks := Raised(c.acks, Slot(n, m.term), |l|))
  }

  function Append(c: Core, n: NodeId, e: LogEntry): Core
    requires n in c.members
  {
    var m := c.members[n];
    var l := m.log + [e];
    SetMember(c, n, m.(log := l))
      .(logs := c.logs[m.term := l], acks := Raised(c.acks, Slot(n, m.term), |l|))
  }

  /** The log after a leader's first k entries have been taken over: unchanged when it already
      starts with them, and exactly those entries otherwise. */
  function Adjusted(l: Log, leaderLog: Log, k: nat): Log
    requires k <= |leaderLog|
  {
    if k <= |l| && l[..k] == leaderLog[..k] then l else leaderLog[..k]
  }

  function Replace(c: Core, v: NodeId, k: nat): Core
    requires v in c.members && c.members[v].term in c.logs && k <= |c.logs[c.members[v].term]|
  {
    var m := c.members[v];
    SetMember(c, v, m.(log := Adjusted(m.log, c.logs[m.term], k)))
  }

  function Ack(c: Core, v: NodeId, k: nat): Core
    requires v in c.members
  {
    c.(acks := Raised(c.acks, Slot(v, c.members[v].term), k))
  }

  function Commit(c: Core, v: NodeId, k: nat): Core
    requires v in c.members
  {
    SetMember(c, v, c.members[v].(commit := k))
  }

  function LeaderCommit(c: Core, n: NodeId, k: nat): Core
    requires n in c.members
  {
    var m := c.members[n];
    SetMember(c, n, m.(commit := k)).(commits := c.commits[m.term := k])
  }

  function LastTermOf(l: Log): nat {
    if |l| == 0 then 0 else l[|l| - 1].term
  }

  /** The comparison of section 5.4.1 of the extended Raft paper. */
  predicate UpToDate(a: Log, b: Log) {
    LastTermOf(a) > LastTermOf(b) || (LastTermOf(a) == LastTermOf(b) && |a| >= |b|)
  }

  /** The next entry of a leader. */
  predicate Fresh(c: Core, n: NodeId, e: LogEntry)
    requires n in c.members
  {
    e.index == |c.members[n].log| + 1 && e.term == c.members[n].term
  }

  // ------------------------------------------------ the small steps keep Base

  /** Nobody comes to lead a term that was decided before, not even a term it led once. */
  ghost predicate LeadsNoneAnew(c: Core, d: Core, v: NodeId)
    requires v in c.members && v in d.members
  {
    d.members[v].role == Leader ==>
      d.members[v].term !in c.leaders || (c.members[v].role == Leader && c.members[v].term == d.members[v].term)
  }

  /** Histories only grow. */
  ghost predicate Grows(c: Core, d: Core) {
    && d.servers == c.servers
    && TermsRise(c, d)
    && LogsGrow(c, d)
    && (forall t :: t in c.leaders ==> t in d.leaders && d.leaders[t] == c.leaders[t])
    && LeadershipsEnd(c, d)
    && VotesKept(c, d)
    && (forall s :: s in c.acks ==> s in d.acks && c.acks[s] <= d.acks[s])
    && (forall t :: t in c.commits ==> t in d.commits && c.commits[t] <= d.commits[t])
    && AcksFresh(c, d)
  }

  /** An acknowledgement is raised only by a server that was not past its term. */
  ghost predicate AcksFresh(c: Core, d: Core) {
    forall s :: s in d.acks && s.node in c.members && (s in c.acks ==> c.acks[s] < d.acks[s]) ==>
      c.members[s.node].term <= s.term
  }

  ghost predicate LeadershipsEnd(c: Core, d: Core) {
    forall v :: v in c.members && v in d.members ==> LeadsNoneAnew(c, d, v)
  }

  lemma LogOkGrows(c: Core, d: Core, l: Log, t: nat, u: nat)
    requires LogOk(c, l, t) && t <= u
    requires LogsGrow(c, d)
    ensures LogOk(d, l, u)
  {
    forall k | 0 <= k < |l| ensures EntryOk(d, l, k, u) {
      assert EntryOk(c, l, k, t);
    }
  }

  lemma LogOkPrefix(c: Core, l: Log, t: nat, k: nat)
    requires LogOk(c, l, t) && k <= |l|
    ensures LogOk(c, l[..k], t)
  {
    forall j | 0 <= j < k ensures EntryOk(c, l[..k], j, t) {
      assert EntryOk(c, l, j, t);
      assert l[..k][..j + 1] == l[..j + 1];
    }
  }

  /** Equal terms at one position force equal logs up to it. */
  lemma SameTermSamePrefix(c: Core, a: Log, b: Log, t: nat, u: nat, k: nat)
    requires LogOk(c, a, t) && LogOk(c, b, u)
    requires k < |a| && k < |b| && a[k].term == b[k].term
    ensures a[..k + 1] == b[..k + 1]
  {
    assert EntryOk(c, a, k, t) && EntryOk(c, b, k, u);
  }

  /** Terms never decrease along a log. */
  lemma TermsMonotone(c: Core, l: Log, t: nat, i: nat, j: nat)
    requires Base(c) && LogOk(c, l, t) && i <= j < |l|
    ensures l[i].term <= l[j].term
  {
    assert EntryOk(c, l, j, t);
    var u := l[j].term;
    assert l[..j + 1][i] == c.logs[u][..j + 1][i];
    assert LogOk(c, c.logs[u], u) && EntryOk(c, c.logs[u], i, u);
  }

  lemma VotersKept(c: Core, d: Core, t: nat, n: NodeId)
    requires d.servers == c.servers && VotesKept(c, d)
    requires Quorum(c, Voters(c, t, n))
    ensures Quorum(d, Voters(d, t, n))
  {
    SubsetSize(Voters(c, t, n), Voters(d, t, n));
  }

  ghost predicate VotesKept(c: Core, d: Core) {
    forall s :: s in c.votes ==> s in d.votes && d.votes[s] == c.votes[s]
  }

  ghost predicate TermsRise(c: Core, d: Core) {
    && d.members.Keys == c.members.Keys
    && (forall v :: v in c.members ==> c.members[v].term <= d.members[v].term)
  }

  ghost predicate LogsGrow(c: Core, d: Core) {
    forall t :: t in c.logs ==> t in d.logs && c.logs[t] <= d.logs[t]
  }

  /** One leader per term: two winners would share a voter. */
  lemma OneWinner(c: Core, t: nat, a: NodeId, b: NodeId)
    requires Quorum(c, Voters(c, t, a)) && Quorum(c, Voters(c, t, b))
    ensures a == b
  {
    var v := QuorumsMeet(c, Voters(c, t, a), Voters(c, t, b));
  }

  lemma LeaderKept(c: Core, d: Core, t: nat)
    requires d.servers == c.servers && VotesKept(c, d) && TermsRise(c, d)
    requires t in c.leaders && t in d.leaders && d.leaders[t] == c.leaders[t] && LeaderOk(c, t)
    ensures LeaderOk(d, t)
  {
    VotersKept(c, d, t, c.leaders[t]);
  }

  /** Most steps leave the leaders alone and move terms forward. */
  lemma LeadersKept(c: Core, d: Core)
    requires LeadersOk(c) && d.servers == c.servers && VotesKept(c, d) && TermsRise(c, d)
    requires d.leaders == c.leaders && d.logs.Keys == c.logs.Keys && d.commits.Keys == c.commits.Keys
    ensures LeadersOk(d)
  {
    forall t | t in d.leaders ensures LeaderOk(d, t) {
      LeaderKept(c, d, t);
    }
  }

  /** Member v may have changed; every other log is as before, with leader logs extended. */
  lemma LogsKept(c: Core, d: Core, v: NodeId, t: nat)
    requires LogsOk(c) && TermsRise(c, d) && LogsGrow(c, d)
    requires forall n :: n in c.members && n != v ==> d.members[n].log == c.members[n].log
    requires v in d.members ==> LogOk(d, d.members[v].log, d.members[v].term)
    requires forall u :: u in d.logs && u != t ==> u in c.logs && d.logs[u] == c.logs[u]
    requires t in d.logs ==> LogOk(d, d.logs[t], t)
    ensures LogsOk(d)
  {
    forall m | m in d.members ensures LogOk(d, d.members[m].log, d.members[m].term) {
      if m != v { LogOkGrows(c, d, c.members[m].log, c.members[m].term, d.members[m].term); }
    }
    forall u | u in d.logs ensures LogOk(d, d.logs[u], u) {
      if u != t { LogOkGrows(c, d, c.logs[u], u, u); }
    }
  }

  /** A step of member v alone, which keeps its log or takes leader entries. */
  lemma FollowerLogsKept(c: Core, d: Core, v: NodeId)
    requires LogsOk(c) && TermsRise(c, d) && d.logs == c.logs && v in c.members
    requires forall n :: n in c.members && n != v ==> d.members[n].log == c.members[n].log
    requires LogOk(c, d.members[v].log, d.members[v].term)
    ensures LogsOk(d)
  {
    LogOkGrows(c, d, d.members[v].log, d.members[v].term, d.members[v].term);
    forall t | t in d.logs ensures LogOk(d, d.logs[t], t) { LogOkGrows(c, d, c.logs[t], t, t); }
    LogsKept(c, d, v, 0);
  }

  /** Roles of servers other than v do not depend on what v does. */
  lemma RolesKept(c: Core, d: Core, v: NodeId)
    requires c.leaders.Keys == c.logs.Keys && d.leaders.Keys == d.logs.Keys
    requires RolesOk(c) && VotesKept(c, d) && d.members.Keys == c.members.Keys
    requires forall n :: n in c.members && n != v ==> d.members[n] == c.members[n]
    requires forall t :: t in c.leaders ==> t in d.leaders && d.leaders[t] == c.leaders[t]
    requires forall t :: t in d.leaders && d.leaders[t] != v ==>
               t in c.leaders && d.leaders[t] == c.leaders[t] && d.logs[t] == c.logs[t]
    requires v in d.members ==> RoleOk(d, v)
    ensures RolesOk(d)
  {
    forall n | n in d.members ensures RoleOk(d, n) {
      if n != v { assert RoleOk(c, n); }
    }
  }

  lemma AdoptBase(c: Core, v: NodeId, t: nat)
    requires Base(c) && v in c.servers && t >= c.members[v].term
    ensures Base(Adopt(c, v, t)) && Grows(c, Adopt(c, v, t))
  {
    var d := Adopt(c, v, t);
    LeadersKept(c, d);
    LogOkGrows(c, c, c.members[v].log, c.members[v].term, t);
    FollowerLogsKept(c, d, v);
    RolesKept(c, d, v);
    AdoptVotes(c, v, t);
  }

  lemma AdoptVotes(c: Core, v: NodeId, t: nat)
    requires VotesOk(c) && v in c.members && t >= c.members[v].term
    ensures VotesOk(Adopt(c, v, t))
  {
    var d := Adopt(c, v, t);
    forall s | s in d.votes ensures SlotOk(d, s) { assert SlotOk(c, s); }
    forall n | n in d.members ensures VotedOk(d, n) { assert VotedOk(c, n); }
  }

  /** A vote never overwrites another one. */
  lemma VoteVotes(c: Core, v: NodeId, n: NodeId)
    requires VotesOk(c) && v in c.members && n in c.members
    requires c.members[v].voted == None || c.members[v].voted == Some(n)
    requires c.members[v].term <= c.members[n].term
    ensures VotesOk(Vote(c, v, n)) && VotesKept(c, Vote(c, v, n))
  {
    var d := Vote(c, v, n);
    var x := Slot(v, c.members[v].term);
    assert x in c.votes ==> SlotOk(c, x);
    forall s | s in d.votes ensures SlotOk(d, s) { if s != x { assert SlotOk(c, s); } }
    forall m | m in d.members ensures VotedOk(d, m) { assert VotedOk(c, m); }
  }

  lemma VoteBase(c: Core, v: NodeId, n: NodeId)
    requires Base(c) && v in c.servers && n in c.servers
    requires c.members[v].voted == None || c.members[v].voted == Some(n)
    requires c.members[v].term <= c.members[n].term
    ensures Base(Vote(c, v, n)) && Grows(c, Vote(c, v, n))
  {
    var d := Vote(c, v, n);
    VoteVotes(c, v, n);
    LeadersKept(c, d);
    FollowerLogsKept(c, d, v);
    assert RoleOk(c, v);
    RolesKept(c, d, v);
  }

  lemma CampaignVotes(c: Core, n: NodeId)
    requires VotesOk(c) && n in c.members
    ensures VotesOk(Campaign(c, n)) && VotesKept(c, Campaign(c, n))
  {
    var d := Campaign(c, n);
    var x := Slot(n, c.members[n].term + 1);
    assert x in c.votes ==> SlotOk(c, x);
    forall s | s in d.votes ensures SlotOk(d, s) { if s != x { assert SlotOk(c, s); } }
    forall m | m in d.members ensures VotedOk(d, m) { assert VotedOk(c, m); }
  }

  lemma CampaignBase(c: Core, n: NodeId)
    requires Base(c) && n in c.servers
    ensures Base(Campaign(c, n)) && Grows(c, Campaign(c, n))
  {
    var d := Campaign(c, n);
    var t := c.members[n].term + 1;
    CampaignVotes(c, n);
    LeadersKept(c, d);
    LogOkGrows(c, c, c.members[n].log, c.members[n].term, t);
    FollowerLogsKept(c, d, n);
    assert t in c.leaders ==> LeaderOk(c, t);
    RolesKept(c, d, n);
  }

  lemma WinnerIsFirst(c: Core, n: NodeId)
    requires Base(c) && n in c.servers && c.members[n].role == Candidate
    requires Quorum(c, Voters(c, c.members[n].term, n))
    ensures c.members[n].term !in c.logs
  {
    var t := c.members[n].term;
    assert RoleOk(c, n);
    if t in c.leaders {
      assert LeaderOk(c, t);
      OneWinner(c, t, n, c.leaders[t]);
      assert false;
    }
  }

  lemma ExtendedLogOk(c: Core, d: Core, l: Log, e: LogEntry)
    requires e.term >= 1 && e.index == |l| + 1
    requires LogOk(c, l, e.term) && LogsGrow(c, d)
    requires e.term in d.logs && d.logs[e.term] == l + [e]
    ensures LogOk(d, l + [e], e.term)
  {
    LogOkGrows(c, d, l, e.term, e.term);
    forall k | 0 <= k < |l + [e]| ensures EntryOk(d, l + [e], k, e.term) {
      if k < |l| {
        assert EntryOk(d, l, k, e.term);
        assert (l + [e])[..k + 1] == l[..k + 1];
      }
    }
  }

  lemma VotesSame(c: Core, d: Core)
    requires VotesOk(c) && d.votes == c.votes && d.members.Keys == c.members.Keys
    requires forall v :: v in c.members ==>
               d.members[v].term == c.members[v].term && d.members[v].voted == c.members[v].voted
    ensures VotesOk(d)
  {
    forall s | s in d.votes ensures SlotOk(d, s) { assert SlotOk(c, s); }
    forall n | n in d.members ensures VotedOk(d, n) { assert VotedOk(c, n); }
  }

  lemma WinLeaders(c: Core, n: NodeId, e: LogEntry)
    requires LeadersOk(c) && n in c.members && c.members[n].term >= 1
    requires Quorum(c, Voters(c, c.members[n].term, n)) && c.members[n].term !in c.logs
    ensures LeadersOk(Win(c, n, e))
  {
    var d := Win(c, n, e);
    var t := c.members[n].term;
    forall u | u in d.leaders ensures LeaderOk(d, u) {
      if u != t { LeaderKept(c, d, u); } else { VotersKept(c, d, t, n); }
    }
  }

  lemma WinRoles(c: Core, n: NodeId, e: LogEntry)
    requires c.leaders.Keys == c.logs.Keys && RolesOk(c)
    requires n in c.members && c.members[n].term !in c.logs
    ensures RolesOk(Win(c, n, e))
  {
    RolesKept(c, Win(c, n, e), n);
  }

  lemma WinLogs(c: Core, n: NodeId, e: LogEntry)
    requires LogsOk(c) && n in c.members && c.members[n].term >= 1 && c.members[n].term !in c.logs && Fresh(c, n, e)
    ensures LogsOk(Win(c, n, e))
  {
    var d := Win(c, n, e);
    ExtendedLogOk(c, d, c.members[n].log, e);
    LogsKept(c, d, n, c.members[n].term);
  }

  lemma WinGrows(c: Core, n: NodeId, e: LogEntry)
    requires n in c.members && c.leaders.Keys == c.logs.Keys == c.commits.Keys && c.members[n].term !in c.logs
    ensures Grows(c, Win(c, n, e))
  {}

  lemma WinBase(c: Core, n: NodeId, e: LogEntry)
    requires Base(c) && n in c.servers && c.members[n].role == Candidate && Fresh(c, n, e)
    requires Quorum(c, Voters(c, c.members[n].term, n))
    ensures Base(Win(c, n, e)) && Grows(c, Win(c, n, e))
  {
    WinnerIsFirst(c, n);
    assert RoleOk(c, n);
    VotesSame(c, Win(c, n, e));
    WinLeaders(c, n, e);
    WinLogs(c, n, e);
    WinRoles(c, n, e);
    WinGrows(c, n, e);
  }

  lemma AppendRoles(c: Core, n: NodeId, e: LogEntry)
    requires c.leaders.Keys == c.logs.Keys && RolesOk(c)
    requires n in c.members && c.members[n].role == Leader && c.members[n].term in c.logs
    ensures RolesOk(Append(c, n, e))
  {
    assert RoleOk(c, n);
    RolesKept(c, Append(c, n, e), n);
  }

  lemma AppendLogs(c: Core, n: NodeId, e: LogEntry)
    requires LogsOk(c) && n in c.members && c.members[n].term >= 1 && Fresh(c, n, e)
    requires c.members[n].term in c.logs && c.logs[c.members[n].term] == c.members[n].log
    ensures LogsOk(Append(c, n, e)) && LogsGrow(c, Append(c, n, e))
  {
    var d := Append(c, n, e);
    ExtendedLogOk(c, d, c.members[n].log, e);
    LogsKept(c, d, n, c.members[n].term);
  }

  lemma AppendBase(c: Core, n: NodeId, e: LogEntry)
    requires Base(c) && n in c.servers && c.members[n].role == Leader && Fresh(c, n, e)
    ensures Base(Append(c, n, e)) && Grows(c, Append(c, n, e))
  {
    assert RoleOk(c, n) && LeaderOk(c, c.members[n].term);
    VotesSame(c, Append(c, n, e));
    LeadersKept(c, Append(c, n, e));
    AppendLogs(c, n, e);
    AppendRoles(c, n, e);
  }

  lemma ReplaceBase(c: Core, v: NodeId, k: nat)
    requires Base(c) && v in c.servers && c.members[v].role == Follower
    requires c.members[v].term in c.logs && k <= |c.logs[c.members[v].term]|
    ensures Base(Replace(c, v, k)) && Grows(c, Replace(c, v, k))
  {
    var d := Replace(c, v, k);
    var t := c.members[v].term;
    VotesSame(c, d);
    LeadersKept(c, d);
    LogOkPrefix(c, c.logs[t], t, k);
    FollowerLogsKept(c, d, v);
    RolesKept(c, d, v);
  }

  /** Acknowledgements and commit indexes play no part in Base. */
  lemma SameBase(c: Core, d: Core, v: NodeId)
    requires Base(c) && v in c.members && v in d.members
    requires d.servers == c.servers && d.votes == c.votes && d.leaders == c.leaders && d.logs == c.logs
    requires d.commits.Keys == c.commits.Keys
    requires d.members == c.members[v := c.members[v].(commit := d.members[v].commit)]
    ensures Base(d)
  {
    VotesSame(c, d);
    LeadersKept(c, d);
    FollowerLogsKept(c, d, v);
    assert RoleOk(c, v);
    RolesKept(c, d, v);
  }

  lemma AckBase(c: Core, v: NodeId, k: nat)
    requires Base(c) && v in c.servers
    ensures Base(Ack(c, v, k)) && Grows(c, Ack(c, v, k))
  {
    SameBase(c, Ack(c, v, k), v);
  }

  lemma CommitBase(c: Core, v: NodeId, k: nat)
    requires Base(c) && v in c.servers
    ensures Base(Commit(c, v, k)) && Grows(c, Commit(c, v, k))
  {
    SameBase(c, Commit(c, v, k), v);
  }

  lemma LeaderCommitBase(c: Core, n: NodeId, k: nat)
    requires Base(c) && n in c.servers && c.members[n].role == Leader
    requires c.members[n].term in c.commits && k >= c.commits[c.members[n].term]
    ensures Base(LeaderCommit(c, n, k)) && Grows(c, LeaderCommit(c, n, k))
  {
    SameBase(c, LeaderCommit(c, n, k), n);
  }
}
