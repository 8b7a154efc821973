/** Acknowledgements and commitment. The central notion is a prefix that may still be
    committed: some quorum has acknowledged it or can still do so. Every later leader
    holds such a prefix, which is leader completeness before any commit is counted. */
module RaftCommit {
  import opened Basics
  import opened RaftTypes
  import opened RaftCore

  ghost function AckOf(c: Core, v: NodeId, t: nat): nat {
    if Slot(v, t) in c.acks then c.acks[Slot(v, t)] else 0
  }

  /** Entry i of the leader of term t was written in term t. */
  ghost predicate Own(c: Core, t: nat, i: nat) {
    t in c.logs && 1 <= i <= |c.logs[t]| && c.logs[t][i - 1].term == t
  }

  ghost function Ackers(c: Core, t: nat, i: nat): set<NodeId> {
    set v | v in c.servers && i <= AckOf(c, v, t)
  }

  /** Servers that confirmed prefix i of term t, or have not moved past that term. */
  ghost function Able(c: Core, t: nat, i: nat): set<NodeId> {
    set v | v in c.servers && v in c.members && (i <= AckOf(c, v, t) || c.members[v].term <= t)
  }

  ghost predicate Choosable(c: Core, t: nat, i: nat) {
    Quorum(c, Able(c, t, i))
  }

  /** A prefix counted by the leader of some term up to mt. */
  ghost predicate CommittedAt(c: Core, t: nat, p: Log) {
    t in c.commits && t in c.logs && |p| <= c.commits[t] && p <= c.logs[t]
  }

  ghost predicate Committed(c: Core, mt: nat, p: Log) {
    |p| == 0 || exists t: nat :: t <= mt && CommittedAt(c, t, p)
  }

  // ------------------------------------------------------------- invariants

  ghost predicate AckOk(c: Core, s: Slot)
    requires s in c.acks
  {
    && s.node in c.members && s.term in c.logs
    && s.term <= c.members[s.node].term && c.acks[s] <= |c.logs[s.term]|
  }

  ghost predicate AcksOk(c: Core) {
    forall s {:trigger AckOk(c, s)} :: s in c.acks ==> AckOk(c, s)
  }

  /** An acknowledged prefix that may still be committed is still in the server's log. */
  ghost predicate Retained(c: Core, v: NodeId, t: nat, i: nat) {
    v in c.members && Own(c, t, i) && i <= AckOf(c, v, t) && Choosable(c, t, i) ==>
      c.logs[t][..i] <= c.members[v].log
  }

  ghost predicate RetainedAll(c: Core) {
    forall v: NodeId, t: nat, i: nat {:trigger Retained(c, v, t, i)} :: Retained(c, v, t, i)
  }

  /** A later leader holds every prefix that may still be committed. */
  ghost predicate Inherited(c: Core, t: nat, u: nat, i: nat) {
    Own(c, t, i) && t < u && u in c.logs && Choosable(c, t, i) ==> c.logs[t][..i] <= c.logs[u]
  }

  ghost predicate InheritedAll(c: Core) {
    forall t: nat, u: nat, i: nat {:trigger Inherited(c, t, u, i)} :: Inherited(c, t, u, i)
  }

  /** What a voter had acknowledged, its candidate holds. */
  ghost predicate Promised(c: Core, n: NodeId, v: NodeId, t: nat, i: nat) {
    n in c.members && c.members[n].role == Candidate && v in c.members
    && Slot(v, c.members[n].term) in c.votes && c.votes[Slot(v, c.members[n].term)] == n
    && t < c.members[n].term && Own(c, t, i) && i <= AckOf(c, v, t) && Choosable(c, t, i) ==>
      c.logs[t][..i] <= c.members[n].log
  }

  ghost predicate PromisedAll(c: Core) {
    forall n: NodeId, v: NodeId, t: nat, i: nat {:trigger Promised(c, n, v, t, i)} :: Promised(c, n, v, t, i)
  }

  ghost predicate LeaderCommitOk(c: Core, t: nat)
    requires t in c.commits
  {
    c.commits[t] > 0 ==> Own(c, t, c.commits[t]) && Quorum(c, Ackers(c, t, c.commits[t]))
  }

  ghost predicate LeaderCommitsOk(c: Core) {
    forall t {:trigger LeaderCommitOk(c, t)} :: t in c.commits ==> LeaderCommitOk(c, t)
  }

  ghost predicate MemberCommitOk(c: Core, n: NodeId)
    requires n in c.members
  {
    var m := c.members[n];
    && m.commit <= |m.log|
    && Committed(c, m.term, m.log[..m.commit])
    && (m.role == Leader && m.term in c.commits ==> c.commits[m.term] <= m.commit)
  }

  ghost predicate MemberCommitsOk(c: Core) {
    forall n {:trigger MemberCommitOk(c, n)} :: n in c.members ==> MemberCommitOk(c, n)
  }

  ghost predicate Safe(c: Core) {
    && Base(c)
    && AcksOk(c)
    && RetainedAll(c)
    && InheritedAll(c)
    && PromisedAll(c)
    && LeaderCommitsOk(c)
    && MemberCommitsOk(c)
  }

  // --------------------------------------------------- monotonicity of history

  lemma ChoosableAntitone(c: Core, d: Core, t: nat, i: nat)
    requires Grows(c, d) && Choosable(d, t, i)
    ensures Choosable(c, t, i)
  {
    forall v | v in Able(d, t, i) ensures v in Able(c, t, i) {}
    SubsetSize(Able(d, t, i), Able(c, t, i));
  }

  lemma CommittedGrows(c: Core, d: Core, mt: nat, nt: nat, p: Log)
    requires Grows(c, d) && Committed(c, mt, p) && mt <= nt
    ensures Committed(d, nt, p)
  {
    if |p| > 0 {
      var t: nat :| t <= mt && CommittedAt(c, t, p);
      assert CommittedAt(d, t, p);
    }
  }

  lemma CommittedPrefix(c: Core, mt: nat, p: Log, q: Log)
    requires Committed(c, mt, p) && q <= p
    ensures Committed(c, mt, q)
  {
    if |q| > 0 {
      var t: nat :| t <= mt && CommittedAt(c, t, p);
      assert CommittedAt(c, t, q);
    }
  }

  lemma AckersGrow(c: Core, d: Core, t: nat, i: nat)
    requires Grows(c, d) && Quorum(c, Ackers(c, t, i))
    ensures Quorum(d, Ackers(d, t, i))
  {
    forall v | v in Ackers(c, t, i) ensures v in Ackers(d, t, i) {}
    SubsetSize(Ackers(c, t, i), Ackers(d, t, i));
  }

  lemma CountedIsChoosable(c: Core, t: nat)
    requires Base(c) && LeaderCommitsOk(c) && t in c.commits && c.commits[t] > 0
    ensures Own(c, t, c.commits[t]) && Choosable(c, t, c.commits[t])
  {
    assert LeaderCommitOk(c, t);
    SubsetSize(Ackers(c, t, c.commits[t]), Able(c, t, c.commits[t]));
  }

  // ------------------------------------------------- leader completeness facts

  /** Leader completeness: a committed prefix is in the log of every later leader. */
  lemma CommittedInLeader(c: Core, mt: nat, p: Log, u: nat)
    requires Base(c) && InheritedAll(c) && LeaderCommitsOk(c)
    requires Committed(c, mt, p) && u in c.logs && mt <= u
    ensures p <= c.logs[u]
  {
    if |p| > 0 {
      var t: nat :| t <= mt && CommittedAt(c, t, p);
      if t < u {
        CountedIsChoosable(c, t);
        assert Inherited(c, t, u, c.commits[t]);
        assert p <= c.logs[t][..c.commits[t]];
      }
    }
  }

  /** The same before any commit is counted: a later leader that exists already at c holds what an
      earlier term's leader only comes to count at d. */
  lemma CommittedInEarlierView(c: Core, d: Core, mt: nat, p: Log, u: nat)
    requires Safe(c) && Safe(d) && Grows(c, d)
    requires Committed(d, mt, p) && u in c.logs && mt < u
    ensures p <= c.logs[u]
  {
    if |p| > 0 {
      var t: nat :| t <= mt && CommittedAt(d, t, p);
      var k := d.commits[t];
      CountedIsChoosable(d, t);
      ChoosableAntitone(c, d, t, k);
      var v := ElectedQuorumMet(c, t, k, u);
      AckBounded(c, v, t);
      OwnBack(c, d, t, k);
      assert Inherited(c, t, u, k);
      assert p <= d.logs[t][..k];
    }
  }

  /** Any two committed prefixes are comparable. */
  lemma CommittedComparable(c: Core, mt: nat, p: Log, nt: nat, q: Log)
    requires Base(c) && InheritedAll(c) && LeaderCommitsOk(c)
    requires Committed(c, mt, p) && Committed(c, nt, q)
    ensures p <= q || q <= p
  {
    if |p| > 0 && |q| > 0 {
      var t: nat :| t <= mt && CommittedAt(c, t, p);
      var u: nat :| u <= nt && CommittedAt(c, u, q);
      if t <= u {
        assert Committed(c, t, p);
        CommittedInLeader(c, t, p, u);
        PrefixesComparable(p, q, c.logs[u]);
      } else {
        assert Committed(c, u, q);
        CommittedInLeader(c, u, q, t);
        PrefixesComparable(p, q, c.logs[t]);
      }
    }
  }

  lemma PrefixesComparable(p: Log, q: Log, l: Log)
    requires p <= l && q <= l
    ensures p <= q || q <= p
  {
    if |p| <= |q| { assert p == l[..|p|] == q[..|p|]; } else { assert q == l[..|q|] == p[..|q|]; }
  }

  /** Shortening a log to leader entries never drops a prefix the leader also holds. */
  lemma AdjustedKeeps(l: Log, leaderLog: Log, k: nat, p: Log)
    requires k <= |leaderLog| && p <= l && p <= leaderLog
    ensures p <= Adjusted(l, leaderLog, k)
  {
    if |p| > k {
      assert l[..k] == p[..k] == leaderLog[..k];
    } else {
      assert p == leaderLog[..|p|] == leaderLog[..k][..|p|];
    }
  }

  // ------------------------------------------ clauses that only need monotonicity

  lemma AcksKept(c: Core, d: Core)
    requires AcksOk(c) && TermsRise(c, d) && LogsGrow(c, d) && d.acks == c.acks
    ensures AcksOk(d)
  {
    forall s | s in d.acks ensures AckOk(d, s) { assert AckOk(c, s); }
  }

  lemma LeaderCommitsKept(c: Core, d: Core)
    requires LeaderCommitsOk(c) && LeadersOk(c) && Grows(c, d)
    requires forall t :: t in d.commits ==> (if t in c.commits then d.commits[t] == c.commits[t] else d.commits[t] == 0)
    ensures LeaderCommitsOk(d)
  {
    forall t | t in d.commits ensures LeaderCommitOk(d, t) {
      if t in c.commits && c.commits[t] > 0 {
        assert LeaderCommitOk(c, t);
        AckersGrow(c, d, t, c.commits[t]);
        assert c.logs[t] <= d.logs[t];
      }
    }
  }

  lemma MemberCommitKept(c: Core, d: Core, n: NodeId)
    requires n in c.members && Grows(c, d) && MemberCommitOk(c, n)
    requires d.members[n].commit == c.members[n].commit && d.commits == c.commits
    requires c.members[n].log[..c.members[n].commit] <= d.members[n].log
    requires d.members[n].role == Leader ==> c.members[n].role == Leader && d.members[n].term == c.members[n].term
    ensures MemberCommitOk(d, n)
  {
    var m := c.members[n];
    assert d.members[n].log[..m.commit] == m.log[..m.commit];
    CommittedGrows(c, d, m.term, d.members[n].term, m.log[..m.commit]);
  }

  lemma OwnBack(c: Core, d: Core, t: nat, i: nat)
    requires Own(d, t, i) && t in c.logs && i <= |c.logs[t]| && c.logs[t] <= d.logs[t]
    ensures Own(c, t, i) && c.logs[t][..i] == d.logs[t][..i]
  {}

  /** Clauses about prefixes when no log changes: fewer prefixes may still be committed. */
  lemma InheritedKept(c: Core, d: Core)
    requires InheritedAll(c) && Grows(c, d) && d.logs == c.logs
    ensures InheritedAll(d)
  {
    forall t: nat, u: nat, i: nat ensures Inherited(d, t, u, i) {
      assert Inherited(c, t, u, i);
      if Choosable(d, t, i) { ChoosableAntitone(c, d, t, i); }
    }
  }

  lemma RetainedKept(c: Core, d: Core, v: NodeId)
    requires RetainedAll(c) && Grows(c, d) && d.logs == c.logs && d.acks == c.acks
    requires forall n :: n in c.members && n != v ==> d.members[n].log == c.members[n].log
    requires v in c.members ==> forall t: nat, i: nat :: Own(c, t, i) && i <= AckOf(c, v, t) && Choosable(c, t, i) ==>
               c.logs[t][..i] <= d.members[v].log
    ensures RetainedAll(d)
  {
    forall n: NodeId, t: nat, i: nat ensures Retained(d, n, t, i) {
      assert Retained(c, n, t, i);
      if Choosable(d, t, i) { ChoosableAntitone(c, d, t, i); }
    }
  }

  lemma RetainedSame(c: Core, d: Core)
    requires RetainedAll(c) && Grows(c, d) && d.logs == c.logs && d.acks == c.acks
    requires forall n :: n in c.members ==> d.members[n].log == c.members[n].log
    ensures RetainedAll(d)
  {
    forall n: NodeId, t: nat, i: nat ensures Retained(d, n, t, i) {
      assert Retained(c, n, t, i);
      if Choosable(d, t, i) { ChoosableAntitone(c, d, t, i); }
    }
  }

  /** Candidates that stay candidates keep their promises when no vote or ack is added. */
  lemma PromisedKept(c: Core, d: Core)
    requires PromisedAll(c) && Grows(c, d) && d.logs == c.logs && d.acks == c.acks && d.votes == c.votes
    requires forall n :: n in c.members && d.members[n].role == Candidate ==>
               c.members[n].role == Candidate && d.members[n].term == c.members[n].term
               && d.members[n].log == c.members[n].log
    ensures PromisedAll(d)
  {
    forall n: NodeId, v: NodeId, t: nat, i: nat ensures Promised(d, n, v, t, i) {
      assert Promised(c, n, v, t, i);
      if Choosable(d, t, i) { ChoosableAntitone(c, d, t, i); }
    }
  }

  // -------------------------------------------------- the small steps keep Safe

  lemma AdoptSafe(c: Core, v: NodeId, t: nat)
    requires Safe(c) && v in c.servers && t >= c.members[v].term
    ensures Safe(Adopt(c, v, t)) && Grows(c, Adopt(c, v, t))
  {
    var d := Adopt(c, v, t);
    AdoptBase(c, v, t);
    AcksKept(c, d);
    RetainedSame(c, d);
    InheritedKept(c, d);
    PromisedKept(c, d);
    LeaderCommitsKept(c, d);
    forall n | n in d.members ensures MemberCommitOk(d, n) { MemberCommitKept(c, d, n); }
  }

  /** The vote rule: a voter's acknowledged prefix is in the log of any candidate that is
      at least as up to date. */
  lemma UpToDateHolds(c: Core, n: NodeId, v: NodeId, t: nat, i: nat)
    requires Safe(c) && n in c.members && v in c.members
    requires c.members[n].role == Candidate && t < c.members[n].term
    requires UpToDate(c.members[n].log, c.members[v].log)
    requires Own(c, t, i) && i <= AckOf(c, v, t) && Choosable(c, t, i)
    ensures c.logs[t][..i] <= c.members[n].log
  {
    var ln, lv, p := c.members[n].log, c.members[v].log, c.logs[t][..i];
    assert Retained(c, v, t, i);
    assert p <= lv && p[i - 1].term == t;
    TermsMonotone(c, lv, c.members[v].term, i - 1, |lv| - 1);
    var w := LastTermOf(ln);
    assert t <= LastTermOf(lv) <= w;
    assert |ln| > 0;
    assert EntryOk(c, ln, |ln| - 1, c.members[n].term);
    assert ln[..|ln|] == ln;
    assert ln <= c.logs[w];
    if w == t {
      assert EntryOk(c, lv, |lv| - 1, c.members[v].term);
      assert i <= |lv| <= |ln|;
      assert p == ln[..i];
    } else {
      assert Inherited(c, t, w, i);
      if |ln| <= i {
        assert c.logs[w][|ln| - 1] == ln[|ln| - 1];
        assert c.logs[w][i - 1] == p[i - 1];
        TermsMonotone(c, c.logs[w], w, |ln| - 1, i - 1);
        assert false;
      }
      assert p == c.logs[w][..i] == ln[..i];
    }
  }

  lemma VotePromised(c: Core, v: NodeId, n: NodeId)
    requires Safe(c) && v in c.servers && n in c.servers
    requires Grows(c, Vote(c, v, n))
    requires c.members[n].role == Candidate && c.members[n].term == c.members[v].term ==>
               UpToDate(c.members[n].log, c.members[v].log)
    ensures PromisedAll(Vote(c, v, n))
  {
    var d := Vote(c, v, n);
    forall m: NodeId, w: NodeId, t: nat, i: nat ensures Promised(d, m, w, t, i) {
      assert Promised(c, m, w, t, i);
      if Choosable(d, t, i) {
        ChoosableAntitone(c, d, t, i);
        if w == v && m == n && n in c.members && c.members[n].role == Candidate && t < c.members[n].term
          && c.members[n].term == c.members[v].term && Own(c, t, i) && i <= AckOf(c, v, t)
        {
          UpToDateHolds(c, n, v, t, i);
        }
      }
    }
  }

  lemma VoteSafe(c: Core, v: NodeId, n: NodeId)
    requires Safe(c) && v in c.servers && n in c.servers
    requires c.members[v].voted == None || c.members[v].voted == Some(n)
    requires c.members[v].term <= c.members[n].term
    requires c.members[n].role == Candidate && c.members[n].term == c.members[v].term ==>
               UpToDate(c.members[n].log, c.members[v].log)
    ensures Safe(Vote(c, v, n)) && Grows(c, Vote(c, v, n))
  {
    var d := Vote(c, v, n);
    VoteBase(c, v, n);
    AcksKept(c, d);
    RetainedSame(c, d);
    InheritedKept(c, d);
    VotePromised(c, v, n);
    LeaderCommitsKept(c, d);
    forall m | m in d.members ensures MemberCommitOk(d, m) { MemberCommitKept(c, d, m); }
  }

  lemma CampaignPromised(c: Core, n: NodeId)
    requires Safe(c) && n in c.servers && Grows(c, Campaign(c, n))
    ensures PromisedAll(Campaign(c, n))
  {
    var d := Campaign(c, n);
    var u := c.members[n].term + 1;
    forall m: NodeId, v: NodeId, t: nat, i: nat ensures Promised(d, m, v, t, i) {
      assert Promised(c, m, v, t, i) && Retained(c, n, t, i);
      assert Slot(v, u) in c.votes ==> SlotOk(c, Slot(v, u));
      if Choosable(d, t, i) { ChoosableAntitone(c, d, t, i); }
    }
  }

  lemma CampaignSafe(c: Core, n: NodeId)
    requires Safe(c) && n in c.servers
    ensures Safe(Campaign(c, n)) && Grows(c, Campaign(c, n))
  {
    var d := Campaign(c, n);
    CampaignBase(c, n);
    AcksKept(c, d);
    RetainedSame(c, d);
    InheritedKept(c, d);
    CampaignPromised(c, n);
    LeaderCommitsKept(c, d);
    forall m | m in d.members ensures MemberCommitOk(d, m) { MemberCommitKept(c, d, m); }
  }

  /** A prefix that a term's own quorum can still choose excludes any later leader from having
      been elected without it: here, no later leader exists unless a voter acknowledged. */
  lemma ElectedQuorumMet(c: Core, t: nat, i: nat, u: nat) returns (v: NodeId)
    requires Base(c) && t < u && u in c.leaders && Choosable(c, t, i)
    ensures v in c.members && i <= AckOf(c, v, t) && c.members[v].term >= u
  {
    assert LeaderOk(c, u);
    v := QuorumsMeet(c, Able(c, t, i), Voters(c, u, c.leaders[u]));
    assert SlotOk(c, Slot(v, u));
  }

  lemma RaisedAck(c: Core, d: Core, n: NodeId, u: nat, k: nat, v: NodeId, t: nat)
    requires d.acks == Raised(c.acks, Slot(n, u), k)
    ensures (v != n || t != u) ==> AckOf(d, v, t) == AckOf(c, v, t)
    ensures AckOf(d, n, u) == Max(AckOf(c, n, u), k)
  {}

  lemma AckBounded(c: Core, v: NodeId, t: nat)
    requires AcksOk(c) && AckOf(c, v, t) > 0
    ensures t in c.logs && AckOf(c, v, t) <= |c.logs[t]|
  {
    assert AckOk(c, Slot(v, t));
  }

  /** A leader's new entry, in a new or an old term: nobody past that term has confirmed it. */
  lemma NewEntryInherited(c: Core, d: Core, n: NodeId, u: nat)
    requires Base(c) && AcksOk(c) && Base(d) && Grows(c, d) && InheritedAll(c)
    requires n in c.members && c.members[n].term == u && d.members[n].term == u && u in d.logs
    requires forall x :: x in d.logs && x != u ==> x in c.logs && d.logs[x] == c.logs[x]
    requires u in c.logs ==> |d.logs[u]| == |c.logs[u]| + 1
    requires u !in c.logs ==> forall t: nat, i: nat :: Own(c, t, i) && t < u && Choosable(c, t, i) ==> c.logs[t][..i] <= d.logs[u]
    requires forall i: nat :: Own(d, u, i) ==> (u in c.logs && i <= |c.logs[u]|) || i == |d.logs[u]|
    requires forall v: NodeId, t: nat :: v != n || t != u ==> AckOf(d, v, t) == AckOf(c, v, t)
    ensures InheritedAll(d)
  {
    forall t: nat, w: nat, i: nat ensures Inherited(d, t, w, i) {
      if Own(d, t, i) && t < w && w in d.logs && Choosable(d, t, i) {
        ChoosableAntitone(c, d, t, i);
        if t == u && !(u in c.logs && i <= |c.logs[u]|) {
          var v := ElectedQuorumMet(d, t, i, w);
          AckBounded(c, v, u);
          assert false;
        } else {
          OwnBack(c, d, t, i);
          if w in c.logs { assert Inherited(c, t, w, i); }
        }
      }
    }
  }

  lemma NewEntryRetained(c: Core, d: Core, n: NodeId, u: nat)
    requires Base(c) && AcksOk(c) && Grows(c, d) && RetainedAll(c)
    requires n in c.members && n in d.members && u in d.logs && d.members[n].log == d.logs[u]
    requires c.members[n].log <= d.members[n].log
    requires forall x :: x in d.logs && x != u ==> x in c.logs && d.logs[x] == c.logs[x]
    requires forall v :: v in c.members && v != n ==> d.members[v] == c.members[v]
    requires forall v: NodeId, t: nat :: v != n || t != u ==> AckOf(d, v, t) == AckOf(c, v, t)
    ensures RetainedAll(d)
  {
    forall v: NodeId, t: nat, i: nat ensures Retained(d, v, t, i) {
      if v in d.members && Own(d, t, i) && i <= AckOf(d, v, t) && Choosable(d, t, i) {
        ChoosableAntitone(c, d, t, i);
        if v == n && t == u {
          assert d.logs[u][..i] <= d.logs[u];
        } else {
          assert AckOk(c, Slot(v, t));
          OwnBack(c, d, t, i);
          assert Retained(c, v, t, i);
        }
      }
    }
  }

  lemma NewEntryPromised(c: Core, d: Core, n: NodeId, u: nat)
    requires Base(c) && AcksOk(c) && Grows(c, d) && PromisedAll(c) && d.votes == c.votes
    requires n in c.members && n in d.members && c.members[n].term == u && d.members[n].role == Leader && u in d.logs
    requires forall x :: x in d.logs && x != u ==> x in c.logs && d.logs[x] == c.logs[x]
    requires forall v :: v in c.members && v != n ==> d.members[v] == c.members[v]
    requires forall v: NodeId, t: nat :: v != n || t != u ==> AckOf(d, v, t) == AckOf(c, v, t)
    ensures PromisedAll(d)
  {
    forall m: NodeId, v: NodeId, t: nat, i: nat ensures Promised(d, m, v, t, i) {
      if m in d.members && d.members[m].role == Candidate && v in d.members
        && Slot(v, d.members[m].term) in d.votes && t < d.members[m].term && Own(d, t, i)
        && i <= AckOf(d, v, t) && Choosable(d, t, i)
      {
        ChoosableAntitone(c, d, t, i);
        assert SlotOk(c, Slot(v, d.members[m].term));
        assert v != n || t != u;
        assert AckOk(c, Slot(v, t));
        OwnBack(c, d, t, i);
        assert Promised(c, m, v, t, i);
      }
    }
  }

  lemma NewEntryAcks(c: Core, d: Core, n: NodeId, u: nat)
    requires AcksOk(c) && TermsRise(c, d) && LogsGrow(c, d)
    requires n in c.members && c.members[n].term == u && u in d.logs
    requires d.acks == Raised(c.acks, Slot(n, u), |d.logs[u]|)
    ensures AcksOk(d)
  {
    forall s | s in d.acks ensures AckOk(d, s) {
      if s in c.acks { assert AckOk(c, s); }
    }
  }

  /** What a winner's voters had acknowledged is in its log. */
  lemma WinnerHolds(c: Core, n: NodeId, t: nat, i: nat)
    requires Base(c) && PromisedAll(c) && n in c.members && c.members[n].role == Candidate
    requires Quorum(c, Voters(c, c.members[n].term, n))
    requires Own(c, t, i) && t < c.members[n].term && Choosable(c, t, i)
    ensures c.logs[t][..i] <= c.members[n].log
  {
    var u := c.members[n].term;
    var v := QuorumsMeet(c, Able(c, t, i), Voters(c, u, n));
    assert SlotOk(c, Slot(v, u));
    assert Promised(c, n, v, t, i);
  }

  lemma OlderEntry(c: Core, l: Log, u: nat, k: nat)
    requires LogOk(c, l, u) && k < |l| && u !in c.logs
    ensures l[k].term != u
  {
    assert EntryOk(c, l, k, u);
  }

  lemma WinInherited(c: Core, n: NodeId, e: LogEntry)
    requires Safe(c) && n in c.servers && c.members[n].role == Candidate && Fresh(c, n, e)
    requires Quorum(c, Voters(c, c.members[n].term, n))
    requires Base(Win(c, n, e)) && Grows(c, Win(c, n, e)) && c.members[n].term !in c.logs
    ensures InheritedAll(Win(c, n, e))
  {
    var d := Win(c, n, e);
    var u := c.members[n].term;
    forall t: nat, i: nat | Own(c, t, i) && t < u && Choosable(c, t, i) ensures c.logs[t][..i] <= d.logs[u] {
      WinnerHolds(c, n, t, i);
    }
    forall i: nat | Own(d, u, i) ensures i == |d.logs[u]| {
      if i < |d.logs[u]| { OlderEntry(c, c.members[n].log, u, i - 1); }
    }
    forall v: NodeId, t: nat ensures v != n || t != u ==> AckOf(d, v, t) == AckOf(c, v, t) {
      RaisedAck(c, d, n, u, |d.logs[u]|, v, t);
    }
    NewEntryInherited(c, d, n, u);
  }

  lemma WinSafe(c: Core, n: NodeId, e: LogEntry)
    requires Safe(c) && n in c.servers && c.members[n].role == Candidate && Fresh(c, n, e)
    requires Quorum(c, Voters(c, c.members[n].term, n))
    ensures Safe(Win(c, n, e)) && Grows(c, Win(c, n, e))
  {
    hide VotesOk, RolesOk, LogsOk, AckOf;
    var d := Win(c, n, e);
    var u := c.members[n].term;
    WinBase(c, n, e);
    WinnerIsFirst(c, n);
    forall v: NodeId, t: nat ensures v != n || t != u ==> AckOf(d, v, t) == AckOf(c, v, t) {
      RaisedAck(c, d, n, u, |d.logs[u]|, v, t);
    }
    NewEntryAcks(c, d, n, u);
    NewEntryRetained(c, d, n, u);
    WinInherited(c, n, e);
    NewEntryPromised(c, d, n, u);
    LeaderCommitsKept(c, d);
    forall m | m in d.members ensures MemberCommitOk(d, m) { NewEntryCommit(c, d, n, u, m); }
  }

  lemma NewEntryCommit(c: Core, d: Core, n: NodeId, u: nat, m: NodeId)
    requires Grows(c, d) && MemberCommitsOk(c) && n in c.members && m in c.members && Base(c)
    requires c.members[n].term == u
    requires m != n ==> d.members[m] == c.members[m]
    requires d.members[n].term == u && d.members[n].commit == c.members[n].commit
    requires c.members[n].log <= d.members[n].log
    requires d.commits == c.commits || (u !in c.commits && d.commits == c.commits[u := 0])
    requires d.members[n].role == Leader
    requires u in c.commits ==> c.members[n].role == Leader
    ensures MemberCommitOk(d, m)
  {
    assert MemberCommitOk(c, m) && RoleOk(c, m);
    var x := c.members[m];
    assert d.members[m].log[..x.commit] == x.log[..x.commit];
    CommittedGrows(c, d, x.term, x.term, x.log[..x.commit]);
  }

  lemma AppendSafe(c: Core, n: NodeId, e: LogEntry)
    requires Safe(c) && n in c.servers && c.members[n].role == Leader && Fresh(c, n, e)
    ensures Safe(Append(c, n, e)) && Grows(c, Append(c, n, e))
  {
    var d := Append(c, n, e);
    var u := c.members[n].term;
    AppendBase(c, n, e);
    assert RoleOk(c, n);
    forall v: NodeId, t: nat ensures v != n || t != u ==> AckOf(d, v, t) == AckOf(c, v, t) {
      RaisedAck(c, d, n, u, |d.logs[u]|, v, t);
    }
    NewEntryAcks(c, d, n, u);
    NewEntryRetained(c, d, n, u);
    NewEntryInherited(c, d, n, u);
    NewEntryPromised(c, d, n, u);
    LeaderCommitsKept(c, d);
    forall m | m in d.members ensures MemberCommitOk(d, m) { NewEntryCommit(c, d, n, u, m); }
  }

  /** Taking over leader entries keeps every prefix that matters. */
  lemma ReplaceKeeps(c: Core, v: NodeId, k: nat, t: nat, i: nat)
    requires Safe(c) && v in c.servers
    requires c.members[v].term in c.logs && k <= |c.logs[c.members[v].term]|
    requires Own(c, t, i) && i <= AckOf(c, v, t) && Choosable(c, t, i)
    ensures c.logs[t][..i] <= Replace(c, v, k).members[v].log
  {
    var u := c.members[v].term;
    assert Retained(c, v, t, i) && Inherited(c, t, u, i) && AckOk(c, Slot(v, t));
    AdjustedKeeps(c.members[v].log, c.logs[u], k, c.logs[t][..i]);
  }

  lemma ReplaceKeepsCommit(c: Core, v: NodeId, k: nat)
    requires Safe(c) && v in c.servers
    requires c.members[v].term in c.logs && k <= |c.logs[c.members[v].term]|
    ensures c.members[v].commit <= |c.members[v].log|
    ensures c.members[v].log[..c.members[v].commit] <= Replace(c, v, k).members[v].log
  {
    var m := c.members[v];
    assert MemberCommitOk(c, v);
    CommittedInLeader(c, m.term, m.log[..m.commit], m.term);
    AdjustedKeeps(m.log, c.logs[m.term], k, m.log[..m.commit]);
  }

  lemma ReplaceSafe(c: Core, v: NodeId, k: nat)
    requires Safe(c) && v in c.servers && c.members[v].role == Follower
    requires c.members[v].term in c.logs && k <= |c.logs[c.members[v].term]|
    ensures Safe(Replace(c, v, k)) && Grows(c, Replace(c, v, k))
    ensures c.members[v].commit <= |c.members[v].log|
    ensures c.members[v].log[..c.members[v].commit] <= Replace(c, v, k).members[v].log
  {
    var d := Replace(c, v, k);
    ReplaceBase(c, v, k);
    AcksKept(c, d);
    forall t: nat, i: nat | Own(c, t, i) && i <= AckOf(c, v, t) && Choosable(c, t, i)
      ensures c.logs[t][..i] <= d.members[v].log
    {
      ReplaceKeeps(c, v, k, t, i);
    }
    RetainedKept(c, d, v);
    InheritedKept(c, d);
    PromisedKept(c, d);
    LeaderCommitsKept(c, d);
    ReplaceKeepsCommit(c, v, k);
    forall m | m in d.members ensures MemberCommitOk(d, m) { MemberCommitKept(c, d, m); }
  }

  lemma AckAcks(c: Core, v: NodeId, k: nat)
    requires AcksOk(c) && v in c.members
    requires c.members[v].term in c.logs && k <= |c.logs[c.members[v].term]|
    ensures AcksOk(Ack(c, v, k))
  {
    var d := Ack(c, v, k);
    forall s | s in d.acks ensures AckOk(d, s) {
      if s in c.acks { assert AckOk(c, s); }
    }
  }

  lemma AckRetained(c: Core, v: NodeId, k: nat)
    requires RetainedAll(c) && v in c.members && Grows(c, Ack(c, v, k))
    requires c.members[v].term in c.logs && k <= |c.logs[c.members[v].term]|
    requires c.logs[c.members[v].term][..k] <= c.members[v].log
    ensures RetainedAll(Ack(c, v, k))
  {
    var d := Ack(c, v, k);
    var u := c.members[v].term;
    forall n: NodeId, t: nat, i: nat ensures Retained(d, n, t, i) {
      assert Retained(c, n, t, i);
      RaisedAck(c, d, v, u, k, n, t);
      if Choosable(d, t, i) { ChoosableAntitone(c, d, t, i); }
    }
  }

  /** Confirming entries that the log holds. */
  lemma AckSafe(c: Core, v: NodeId, k: nat)
    requires Safe(c) && v in c.servers && c.members[v].role == Follower
    requires c.members[v].term in c.logs && k <= |c.logs[c.members[v].term]|
    requires c.logs[c.members[v].term][..k] <= c.members[v].log
    ensures Safe(Ack(c, v, k)) && Grows(c, Ack(c, v, k))
  {
    var d := Ack(c, v, k);
    AckBase(c, v, k);
    AckAcks(c, v, k);
    AckRetained(c, v, k);
    InheritedKept(c, d);
    AckPromised(c, v, k);
    LeaderCommitsKept(c, d);
    forall m | m in d.members ensures MemberCommitOk(d, m) { MemberCommitKept(c, d, m); }
  }

  lemma AckPromised(c: Core, v: NodeId, k: nat)
    requires Safe(c) && v in c.servers && Grows(c, Ack(c, v, k))
    ensures PromisedAll(Ack(c, v, k))
  {
    var d := Ack(c, v, k);
    forall n: NodeId, w: NodeId, t: nat, i: nat ensures Promised(d, n, w, t, i) {
      assert Promised(c, n, w, t, i);
      RaisedAck(c, d, v, c.members[v].term, k, w, t);
      if Choosable(d, t, i) {
        ChoosableAntitone(c, d, t, i);
        if n in c.members && Slot(w, c.members[n].term) in c.votes {
          assert SlotOk(c, Slot(w, c.members[n].term));
        }
      }
    }
  }

  lemma CommitSafe(c: Core, v: NodeId, k: nat)
    requires Safe(c) && v in c.servers && c.members[v].commit <= k <= |c.members[v].log|
    requires Committed(c, c.members[v].term, c.members[v].log[..k])
    ensures Safe(Commit(c, v, k)) && Grows(c, Commit(c, v, k))
  {
    var d := Commit(c, v, k);
    CommitBase(c, v, k);
    AcksKept(c, d);
    RetainedSame(c, d);
    InheritedKept(c, d);
    PromisedKept(c, d);
    LeaderCommitsKept(c, d);
    forall m | m in d.members ensures MemberCommitOk(d, m) {
      assert MemberCommitOk(c, m);
      if m != v { MemberCommitKept(c, d, m); }
      else { CommittedGrows(c, d, c.members[v].term, c.members[v].term, c.members[v].log[..k]); }
    }
  }

  lemma LeaderCommitCounts(c: Core, n: NodeId, k: nat)
    requires LeaderCommitsOk(c) && n in c.servers && n in c.members && Grows(c, LeaderCommit(c, n, k))
    requires Own(c, c.members[n].term, k) && Quorum(c, Ackers(c, c.members[n].term, k))
    ensures LeaderCommitsOk(LeaderCommit(c, n, k))
  {
    var d := LeaderCommit(c, n, k);
    forall t | t in d.commits ensures LeaderCommitOk(d, t) {
      if t in c.commits { assert LeaderCommitOk(c, t); }
      if d.commits[t] > 0 { AckersGrow(c, d, t, d.commits[t]); }
    }
  }

  lemma LeaderCommitMembers(c: Core, n: NodeId, k: nat)
    requires Base(c) && MemberCommitsOk(c) && n in c.servers && Grows(c, LeaderCommit(c, n, k))
    requires c.members[n].role == Leader && Own(c, c.members[n].term, k)
    ensures MemberCommitsOk(LeaderCommit(c, n, k))
  {
    var d := LeaderCommit(c, n, k);
    assert RoleOk(c, n);
    forall m | m in d.members ensures MemberCommitOk(d, m) {
      assert MemberCommitOk(c, m) && RoleOk(c, m);
      var x := c.members[m];
      if m == n { assert CommittedAt(d, x.term, d.members[n].log[..k]); }
      else { CommittedGrows(c, d, x.term, x.term, x.log[..x.commit]); }
    }
  }

  /** Counting a quorum for an entry of the leader's own term. */
  lemma LeaderCommitSafe(c: Core, n: NodeId, k: nat)
    requires Safe(c) && n in c.servers && c.members[n].role == Leader
    requires c.members[n].commit <= k && Own(c, c.members[n].term, k)
    requires Quorum(c, Ackers(c, c.members[n].term, k))
    ensures Safe(LeaderCommit(c, n, k)) && Grows(c, LeaderCommit(c, n, k))
  {
    var d := LeaderCommit(c, n, k);
    assert RoleOk(c, n) && MemberCommitOk(c, n);
    LeaderCommitBase(c, n, k);
    AcksKept(c, d);
    RetainedSame(c, d);
    InheritedKept(c, d);
    PromisedKept(c, d);
    LeaderCommitCounts(c, n, k);
    LeaderCommitMembers(c, n, k);
  }
}
