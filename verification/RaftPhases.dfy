/** Each locked region is a few phases, and each phase is one or two small steps of the
    protocol. A phase keeps the node in step with the history, and every durable image it
    writes on the way can be restarted from.

    `tier` says what a run may rely on: 0 nothing; 1 followers commit only what a request
    verified; 2 in addition, no snapshot is installed over a newer applied state. */
module RaftPhases {
  import opened Basics
  import opened RaftTypes
  import opened RaftNode
  import opened RaftCore
  import opened RaftCommit
  import opened RaftView

  ghost predicate CoreOk(tier: nat, c: Core) {
    c.members.Keys == c.servers && Base(c) && (tier >= 1 ==> Safe(c))
  }

  /** One more stretch of history in which only server v moved. */
  ghost predicate Extends(tier: nat, c: Core, d: Core, v: NodeId) {
    && CoreOk(tier, d) && Grows(c, d) && v in c.members && v in d.members
    && (forall n :: n in c.members && n != v ==> d.members[n] == c.members[n])
    && (d.members[v].role == Candidate && d.members[v].term == c.members[v].term ==>
          c.members[v].role == Candidate && d.members[v].log == c.members[v].log)
  }

  lemma GrowsTransitive(c: Core, d: Core, e: Core)
    requires Grows(c, d) && Grows(d, e)
    ensures Grows(c, e)
  {
    AcksFreshTransitive(c, d, e);
    LeadershipsTransitive(c, d, e);
    hide AcksFresh, LeadershipsEnd;
  }

  lemma AcksFreshTransitive(c: Core, d: Core, e: Core)
    requires TermsRise(c, d) && AcksFresh(c, d) && AcksFresh(d, e)
    ensures AcksFresh(c, e)
  {
    forall s | s in e.acks && s.node in c.members && (s in c.acks ==> c.acks[s] < e.acks[s])
      ensures c.members[s.node].term <= s.term
    {
      if s in d.acks && (s in c.acks ==> c.acks[s] < d.acks[s]) {
      } else {
        assert s in d.acks ==> d.acks[s] < e.acks[s];
        assert d.members[s.node].term <= s.term;
      }
    }
  }

  lemma LeadershipsTransitive(c: Core, d: Core, e: Core)
    requires TermsRise(c, d) && TermsRise(d, e) && LeadershipsEnd(c, d) && LeadershipsEnd(d, e)
    requires forall t :: t in c.leaders ==> t in d.leaders
    ensures LeadershipsEnd(c, e)
  {
    forall v | v in c.members && v in e.members ensures LeadsNoneAnew(c, e, v) {
      assert LeadsNoneAnew(c, d, v) && LeadsNoneAnew(d, e, v);
    }
  }

  lemma ExtendsTransitive(tier: nat, c: Core, d: Core, e: Core, v: NodeId)
    requires Extends(tier, c, d, v) && Extends(tier, d, e, v)
    ensures Extends(tier, c, e, v)
  {
    hide Base, Safe;
    GrowsTransitive(c, d, e);
  }

  lemma ExtendsSelf(tier: nat, c: Core, v: NodeId)
    requires CoreOk(tier, c) && v in c.members
    ensures Extends(tier, c, c, v)
  {}

  // ------------------------------------------------------- a node and its disk

  ghost predicate SnapImageOk(snap: Option<Snapshot>, full: Log) {
    snap.Some? && snap.value.index <= |full| ==> snap.value.image == Replay(map[], full[..snap.value.index])
  }

  ghost predicate DiskShape(d: Disk, m: Member) {
    d.hard.term == m.term && d.hard.votedFor == m.voted && Holds(d.log, d.snap, m.log)
  }

  function DiskCommit(d: Disk): nat { Max(d.hard.commit, SnapIndex(d.snap)) }

  ghost predicate DiskOk(tier: nat, c: Core, v: NodeId, d: Disk)
    requires v in c.members
  {
    var m := c.members[v];
    && DiskShape(d, m)
    && (tier >= 1 ==> m.commit <= DiskCommit(d) <= |m.log| && Committed(c, m.term, m.log[..DiskCommit(d)]))
    && (tier >= 2 ==> SnapImageOk(d.snap, m.log))
  }

  /** Entry a lies in a prefix that ends in an entry of term t and that a quorum has confirmed to
      the leader of term t, whether or not that leader has counted it yet. */
  ghost predicate ChosenIn(c: Core, t: nat, k: nat, a: LogEntry) {
    Own(c, t, k) && Quorum(c, Ackers(c, t, k)) && 1 <= a.index <= k && c.logs[t][a.index - 1] == a
  }

  ghost predicate AppliedOk(c: Core, a: LogEntry) {
    exists t: nat, k: nat :: ChosenIn(c, t, k, a)
  }

  ghost predicate AppliesOk(c: Core, applies: seq<LogEntry>) {
    forall a :: a in applies ==> AppliedOk(c, a)
  }

  /** The leader of term t has counted entry a. */
  ghost predicate CountedIn(c: Core, t: nat, a: LogEntry) {
    t in c.commits && t in c.logs && 1 <= a.index <= c.commits[t] && a.index <= |c.logs[t]| && c.logs[t][a.index - 1] == a
  }

  ghost predicate Counted(c: Core, a: LogEntry) {
    exists t: nat :: CountedIn(c, t, a)
  }

  /** Entry a was v's own to count, as leader of term t. */
  ghost predicate OwnChoice(c: Core, v: NodeId, t: nat, k: nat, a: LogEntry) {
    ChosenIn(c, t, k, a) && t in c.leaders && c.leaders[t] == v
  }

  ghost predicate Retired(c: Core, v: NodeId, t: nat) {
    v in c.members && !(c.members[v].role == Leader && c.members[v].term == t)
  }

  /** What v may hand over: what some leader has counted, or what it is about to count itself. */
  ghost predicate Handed(c: Core, v: NodeId, a: LogEntry) {
    Counted(c, a) || exists t: nat, k: nat :: OwnChoice(c, v, t, k, a)
  }

  /** What v has handed over between two regions: if nobody counted it, a crash has ended v's lead. */
  ghost predicate Settled(c: Core, v: NodeId, a: LogEntry) {
    Counted(c, a) || exists t: nat, k: nat :: OwnChoice(c, v, t, k, a) && Retired(c, v, t)
  }

  ghost predicate HandedOk(c: Core, v: NodeId, applies: seq<LogEntry>) {
    forall a :: a in applies ==> Handed(c, v, a)
  }

  ghost predicate SettledOk(c: Core, v: NodeId, applies: seq<LogEntry>) {
    forall a :: a in applies ==> Settled(c, v, a)
  }

  /** A leader's bookkeeping never runs ahead of what servers confirmed. */
  ghost predicate MatchedOk(c: Core, v: NodeId, n: Node)
    requires v in c.members
  {
    n.role == Leader ==>
      && |c.members[v].log| <= AckOf(c, v, n.hard.term)
      && (forall p :: p in n.matched ==> n.matched[p] <= AckOf(c, p, n.hard.term))
  }

  ghost predicate NodeShape(n: Node, m: Member) {
    && n.hard.term == m.term && n.hard.votedFor == m.voted && n.role == m.role && n.hard.commit == m.commit
    && Holds(n.log, n.snap, m.log)
    && |n.writes| > 0
    && Stored(n).log == n.log && Stored(n).snap == n.snap
    && Stored(n).hard.term == m.term && Stored(n).hard.votedFor == m.voted
  }

  ghost predicate NodeSafe(c: Core, v: NodeId, n: Node)
    requires v in c.members
  {
    && Stored(n).hard == n.hard
    && SnapIndex(n.snap) <= n.hard.applied == n.hard.commit
    && MatchedOk(c, v, n)
    && SettledOk(c, v, n.applies)
  }

  ghost predicate NodeImage(n: Node, full: Log) {
    && SnapImageOk(n.snap, full)
    && (n.hard.applied <= |full| ==> n.image == Replay(map[], full[..n.hard.applied]))
  }

  ghost predicate NodeOk(tier: nat, c: Core, v: NodeId, n: Node)
    requires v in c.members
  {
    && NodeShape(n, c.members[v])
    && (tier >= 1 ==> NodeSafe(c, v, n))
    && (tier >= 2 ==> NodeImage(n, c.members[v].log))
  }

  /** The most that can have been handed over when a crash leaves image k as the last one. */
  function HandedBy(n: Node, k: nat): seq<LogEntry> {
    if k + 1 < |n.writes| && n.writes[k + 1].handed <= |n.applies| then n.applies[..n.writes[k + 1].handed] else n.applies
  }

  /** A restart from image d, after `applies` has been handed over, either refuses or continues some
      stretch of history in which all of `applies` may have been handed over. */
  ghost predicate CrashOk(tier: nat, c: Core, v: NodeId, d: Disk, applies: seq<LogEntry>) {
    Recover(d, [], []).None? || exists e :: Continues(tier, c, e, v, d, applies)
  }

  ghost predicate Continues(tier: nat, c: Core, e: Core, v: NodeId, d: Disk, applies: seq<LogEntry>) {
    Extends(tier, c, e, v) && DiskOk(tier, e, v, d) && (tier >= 1 ==> HandedOk(e, v, applies))
  }

  /** The images written between n and n'. */
  ghost predicate NewImagesOk(tier: nat, c: Core, v: NodeId, n: Node, n': Node) {
    && n.writes <= n'.writes && n.applies <= n'.applies
    && (forall k :: |n.writes| <= k < |n'.writes| ==>
          n'.writes[k].handed <= |n'.applies| && CrashOk(tier, c, v, n'.writes[k].disk, HandedBy(n', k)))
  }

  /** The same, and the image that was last when n began to act. */
  ghost predicate ImagesOk(tier: nat, c: Core, v: NodeId, n: Node, n': Node) {
    && NewImagesOk(tier, c, v, n, n')
    && |n.writes| > 0 && CrashOk(tier, c, v, Stored(n), HandedBy(n', |n.writes| - 1))
  }

  /** A phase from (c, n) to (d, n'). */
  ghost predicate Phase(tier: nat, c: Core, d: Core, v: NodeId, n: Node, n': Node) {
    && Extends(tier, c, d, v) && NodeOk(tier, d, v, n') && ImagesOk(tier, c, v, n, n')
  }

  lemma PhaseThen(tier: nat, c: Core, d: Core, e: Core, v: NodeId, n: Node, n': Node, n'': Node)
    requires Phase(tier, c, d, v, n, n') && Phase(tier, d, e, v, n', n'')
    ensures Phase(tier, c, e, v, n, n'')
  {
    hide Extends, NodeOk, CrashOk, HandedBy;
    ExtendsTransitive(tier, c, d, e, v);
    forall k: nat | |n.writes| - 1 <= k < |n''.writes| ensures CrashOk(tier, c, v, n''.writes[k].disk, HandedBy(n'', k)) {
      if k < |n'.writes| - 1 {
        CrashImage(tier, c, v, n, n', k);
        assert n''.writes[k] == n'.writes[k] && n''.writes[k + 1] == n'.writes[k + 1];
        SameHanded(n', n'', k);
      } else {
        CrashImage(tier, d, v, n', n'', k);
        CrashEarlier(tier, c, d, v, n''.writes[k].disk, HandedBy(n'', k));
      }
    }
    forall k | |n.writes| <= k < |n''.writes| ensures n''.writes[k].handed <= |n''.applies| {
      if k < |n'.writes| { assert n''.writes[k] == n'.writes[k]; }
    }
    assert n''.writes[|n.writes| - 1] == n.writes[|n.writes| - 1];
  }

  lemma SameHanded(n: Node, n': Node, k: nat)
    requires n.applies <= n'.applies && k + 1 < |n.writes| && n.writes <= n'.writes && n.writes[k + 1].handed <= |n.applies|
    ensures HandedBy(n', k) == HandedBy(n, k)
  {
    assert n'.writes[k + 1] == n.writes[k + 1];
  }

  lemma CrashImage(tier: nat, c: Core, v: NodeId, n: Node, n': Node, k: nat)
    requires ImagesOk(tier, c, v, n, n') && |n.writes| - 1 <= k < |n'.writes|
    ensures CrashOk(tier, c, v, n'.writes[k].disk, HandedBy(n', k))
  {
    hide CrashOk;
    if k == |n.writes| - 1 { assert n'.writes[k] == n.writes[k]; }
  }

  lemma CrashEarlier(tier: nat, c: Core, d: Core, v: NodeId, x: Disk, applies: seq<LogEntry>)
    requires Extends(tier, c, d, v) && CrashOk(tier, d, v, x, applies)
    ensures CrashOk(tier, c, v, x, applies)
  {
    hide Base, Safe, DiskOk;
    if !Recover(x, [], []).None? {
      var e :| Continues(tier, d, e, v, x, applies);
      ExtendsTransitive(tier, c, d, e, v);
      assert Continues(tier, c, e, v, x, applies);
    }
  }

  lemma NodeDiskOk(tier: nat, c: Core, v: NodeId, n: Node)
    requires CoreOk(tier, c) && v in c.members && NodeOk(tier, c, v, n)
    ensures DiskOk(tier, c, v, Stored(n))
  {
    if tier >= 1 { assert MemberCommitOk(c, v); }
  }

  /** Before a region writes anything, a restart continues from where it began. */
  lemma StoredCrashOk(tier: nat, c: Core, v: NodeId, n: Node, applies: seq<LogEntry>)
    requires CoreOk(tier, c) && v in c.members && NodeOk(tier, c, v, n) && (tier >= 1 ==> HandedOk(c, v, applies))
    ensures CrashOk(tier, c, v, Stored(n), applies)
  {
    hide Base, Safe;
    NodeDiskOk(tier, c, v, n);
    ExtendsSelf(tier, c, v);
    assert Continues(tier, c, c, v, Stored(n), applies);
  }

  lemma QuietCrashOk(tier: nat, c: Core, v: NodeId, n: Node)
    requires CoreOk(tier, c) && v in c.members && NodeOk(tier, c, v, n)
    ensures CrashOk(tier, c, v, Stored(n), n.applies)
  {
    hide Base, Safe;
    ExtendsSelf(tier, c, v);
    LastCrashOk(tier, c, c, v, n);
  }

  lemma SettledHanded(c: Core, v: NodeId, applies: seq<LogEntry>)
    requires SettledOk(c, v, applies)
    ensures HandedOk(c, v, applies)
  {
    forall a | a in applies ensures Handed(c, v, a) { assert Settled(c, v, a); }
  }

  /** After its last write, a restart continues from where it ended. */
  lemma LastCrashOk(tier: nat, c: Core, d: Core, v: NodeId, n: Node)
    requires Extends(tier, c, d, v) && NodeOk(tier, d, v, n)
    ensures CrashOk(tier, c, v, Stored(n), n.applies)
  {
    hide Base, Safe;
    NodeDiskOk(tier, d, v, n);
    if tier >= 1 { SettledHanded(d, v, n.applies); }
    assert Continues(tier, c, d, v, Stored(n), n.applies);
  }

  /** A phase that ends with its only write. */
  lemma OneWrite(tier: nat, c: Core, d: Core, v: NodeId, n: Node, n': Node)
    requires CoreOk(tier, c) && Extends(tier, c, d, v) && v in c.members && NodeOk(tier, c, v, n) && NodeOk(tier, d, v, n')
    requires n'.writes == n.writes + [Write(Stored(n'), |n'.applies|)] && n'.applies == n.applies
    ensures Phase(tier, c, d, v, n, n')
  {
    hide CoreOk, Extends, CrashOk;
    QuietCrashOk(tier, c, v, n);
    LastCrashOk(tier, c, d, v, n');
    assert HandedBy(n', |n.writes| - 1) == n.applies && HandedBy(n', |n.writes|) == n.applies;
  }

  lemma NoWrite(tier: nat, c: Core, d: Core, v: NodeId, n: Node, n': Node)
    requires CoreOk(tier, c) && Extends(tier, c, d, v) && v in c.members && NodeOk(tier, c, v, n) && NodeOk(tier, d, v, n')
    requires n'.writes == n.writes && n'.applies == n.applies
    ensures Phase(tier, c, d, v, n, n')
  {
    hide CoreOk, Extends, CrashOk;
    QuietCrashOk(tier, c, v, n);
  }

  lemma AppliedGrows(c: Core, d: Core, a: LogEntry)
    requires Grows(c, d) && AppliedOk(c, a)
    ensures AppliedOk(d, a)
  {
    var t: nat, k: nat :| ChosenIn(c, t, k, a);
    AckersGrow(c, d, t, k);
    assert c.logs[t] <= d.logs[t];
    assert ChosenIn(d, t, k, a);
  }

  lemma AppliesGrow(c: Core, d: Core, applies: seq<LogEntry>)
    requires Grows(c, d) && AppliesOk(c, applies)
    ensures AppliesOk(d, applies)
  {
    forall a | a in applies ensures AppliedOk(d, a) { AppliedGrows(c, d, a); }
  }

  lemma CountedGrows(c: Core, d: Core, a: LogEntry)
    requires Grows(c, d) && Counted(c, a)
    ensures Counted(d, a)
  {
    var t: nat :| CountedIn(c, t, a);
    assert c.logs[t] <= d.logs[t];
    assert CountedIn(d, t, a);
  }

  lemma ChosenGrows(c: Core, d: Core, t: nat, k: nat, a: LogEntry)
    requires Grows(c, d) && ChosenIn(c, t, k, a)
    ensures ChosenIn(d, t, k, a)
  {
    AckersGrow(c, d, t, k);
    assert c.logs[t] <= d.logs[t];
  }

  lemma SettledGrow(c: Core, d: Core, v: NodeId, applies: seq<LogEntry>)
    requires Grows(c, d) && SettledOk(c, v, applies)
    ensures SettledOk(d, v, applies)
  {
    hide ChosenIn, Counted;
    forall a | a in applies ensures Settled(d, v, a) {
      assert Settled(c, v, a);
      if Counted(c, a) {
        CountedGrows(c, d, a);
      } else {
        var t: nat, k: nat :| OwnChoice(c, v, t, k, a) && Retired(c, v, t);
        ChosenGrows(c, d, t, k, a);
        assert LeadsNoneAnew(c, d, v);
        assert OwnChoice(d, v, t, k, a) && Retired(d, v, t);
      }
    }
  }

  /** What may be handed over was chosen. */
  lemma HandedChosen(c: Core, v: NodeId, applies: seq<LogEntry>)
    requires LeaderCommitsOk(c) && HandedOk(c, v, applies)
    ensures AppliesOk(c, applies)
  {
    forall a | a in applies ensures AppliedOk(c, a) {
      assert Handed(c, v, a);
      if Counted(c, a) {
        var t: nat :| CountedIn(c, t, a);
        assert LeaderCommitOk(c, t);
        assert ChosenIn(c, t, c.commits[t], a);
      } else {
        var t: nat, k: nat :| OwnChoice(c, v, t, k, a);
      }
    }
  }

  /** A server that follows has retired from every term. */
  lemma FollowerSettles(c: Core, v: NodeId, applies: seq<LogEntry>)
    requires HandedOk(c, v, applies) && v in c.members && c.members[v].role == Follower
    ensures SettledOk(c, v, applies)
  {
    hide ChosenIn, Counted;
    forall a | a in applies ensures Settled(c, v, a) {
      assert Handed(c, v, a);
      if !Counted(c, a) {
        var t: nat, k: nat :| OwnChoice(c, v, t, k, a);
        assert OwnChoice(c, v, t, k, a) && Retired(c, v, t);
      }
    }
  }

  lemma HandedGrow(c: Core, d: Core, v: NodeId, applies: seq<LogEntry>)
    requires Grows(c, d) && HandedOk(c, v, applies)
    ensures HandedOk(d, v, applies)
  {
    hide ChosenIn, Counted;
    forall a | a in applies ensures Handed(d, v, a) {
      assert Handed(c, v, a);
      if Counted(c, a) {
        CountedGrows(c, d, a);
      } else {
        var t: nat, k: nat :| OwnChoice(c, v, t, k, a);
        ChosenGrows(c, d, t, k, a);
        assert OwnChoice(d, v, t, k, a);
      }
    }
  }

  lemma MatchedGrows(c: Core, d: Core, v: NodeId, n: Node)
    requires Grows(c, d) && v in c.members && d.members[v].log == c.members[v].log && MatchedOk(c, v, n)
    ensures MatchedOk(d, v, n)
  {
    if n.role == Leader {
      assert |c.members[v].log| <= AckOf(c, v, n.hard.term);
      forall p | p in n.matched ensures n.matched[p] <= AckOf(d, p, n.hard.term) {
        assert n.matched[p] <= AckOf(c, p, n.hard.term);
      }
    }
  }

  /** Entries of a committed prefix were counted. */
  lemma PrefixCounted(c: Core, v: NodeId, mt: nat, p: Log, es: seq<LogEntry>)
    requires Numbered(p) && Committed(c, mt, p) && forall a :: a in es ==> a in p
    ensures SettledOk(c, v, es)
  {
    forall a | a in es ensures Settled(c, v, a) {
      var k :| 0 <= k < |p| && p[k] == a;
      var t: nat :| t <= mt && CommittedAt(c, t, p);
      assert CountedIn(c, t, a);
    }
  }

  lemma PrefixApplied(c: Core, mt: nat, p: Log, es: seq<LogEntry>)
    requires LeaderCommitsOk(c) && Numbered(p) && Committed(c, mt, p) && forall a :: a in es ==> a in p
    ensures AppliesOk(c, es)
  {
    hide SettledOk, HandedOk, AppliesOk, Committed, Numbered;
    PrefixCounted(c, 0, mt, p, es);
    SettledHanded(c, 0, es);
    HandedChosen(c, 0, es);
  }

  /** A leader may hand over the entries up to one of its own term that it can count. */
  lemma QuorumHanded(c: Core, v: NodeId, t: nat, k: nat)
    requires Own(c, t, k) && Quorum(c, Ackers(c, t, k)) && Numbered(c.logs[t]) && t in c.leaders && c.leaders[t] == v
    ensures HandedOk(c, v, c.logs[t][..k])
  {
    forall a | a in c.logs[t][..k] ensures Handed(c, v, a) {
      assert OwnChoice(c, v, t, k, a);
    }
  }

  lemma CommitFacts(c: Core, v: NodeId)
    requires Safe(c) && v in c.members
    ensures c.members[v].commit <= |c.members[v].log|
    ensures Committed(c, c.members[v].term, c.members[v].log[..c.members[v].commit])
  {
    assert MemberCommitOk(c, v);
  }

  lemma MemberNumbered(c: Core, v: NodeId)
    requires Base(c) && v in c.members
    ensures Numbered(c.members[v].log)
  {
    LogOkNumbered(c, c.members[v].log, c.members[v].term);
  }

  // ------------------------------------------------------------ election phases

  lemma StepDownPhase(tier: nat, c: Core, v: NodeId, n: Node, term: nat, leader: Option<NodeId>)
    requires CoreOk(tier, c) && v in c.servers && v in c.members && NodeOk(tier, c, v, n) && term >= n.hard.term
    ensures Phase(tier, c, Adopt(c, v, term), v, n, StepDown(n, term, leader))
  {
    hide CoreOk, Extends, NodeOk, Phase;
    StepDownNode(tier, c, v, n, term, leader);
    OneWrite(tier, c, Adopt(c, v, term), v, n, StepDown(n, term, leader));
  }

  lemma StepDownNode(tier: nat, c: Core, v: NodeId, n: Node, term: nat, leader: Option<NodeId>)
    requires CoreOk(tier, c) && v in c.servers && v in c.members && NodeOk(tier, c, v, n) && term >= n.hard.term
    ensures Extends(tier, c, Adopt(c, v, term), v) && v in Adopt(c, v, term).members
    ensures NodeOk(tier, Adopt(c, v, term), v, StepDown(n, term, leader))
  {
    hide Base, Safe, Grows, Holds, Replay, SettledOk, HandedOk, SnapImageOk;
    var d := Adopt(c, v, term);
    AdoptBase(c, v, term);
    if tier >= 1 {
      AdoptSafe(c, v, term);
      SettledGrow(c, d, v, n.applies);
    }
  }

  lemma VotePhase(tier: nat, c: Core, v: NodeId, n: Node, cand: NodeId)
    requires CoreOk(tier, c) && v in c.servers && cand in c.servers && NodeOk(tier, c, v, n)
    requires n.hard.votedFor == None || n.hard.votedFor == Some(cand)
    requires n.hard.term <= c.members[cand].term
    requires tier >= 1 && c.members[cand].role == Candidate && c.members[cand].term == n.hard.term ==>
               UpToDate(c.members[cand].log, c.members[v].log)
    ensures Phase(tier, c, Vote(c, v, cand), v, n, SaveHard(n.(hard := n.hard.(votedFor := Some(cand)))))
  {
    hide Base, Safe, Grows;
    var d := Vote(c, v, cand);
    VoteBase(c, v, cand);
    if tier >= 1 {
      VoteSafe(c, v, cand);
      SettledGrow(c, d, v, n.applies);
      MatchedGrows(c, d, v, n);
    }
    OneWrite(tier, c, d, v, n, SaveHard(n.(hard := n.hard.(votedFor := Some(cand)))));
  }

  lemma CampaignPhase(tier: nat, c: Core, cfg: Config, n: Node)
    requires CoreOk(tier, c) && cfg.id in c.servers && NodeOk(tier, c, cfg.id, n) && n.role != Leader
    ensures Phase(tier, c, Campaign(c, cfg.id), cfg.id, n, StartElection(cfg, n).0)
  {
    hide Base, Safe, Grows;
    var d := Campaign(c, cfg.id);
    CampaignBase(c, cfg.id);
    if tier >= 1 {
      CampaignSafe(c, cfg.id);
      SettledGrow(c, d, cfg.id, n.applies);
    }
    OneWrite(tier, c, d, cfg.id, n, StartElection(cfg, n).0);
  }

  function NextEntry(n: Node, command: Command): LogEntry {
    LogEntry(LastIndex(n.log, n.snap) + 1, n.hard.term, command)
  }

  lemma AppendHolds(n: Node, full: Log, e: LogEntry)
    requires Holds(n.log, n.snap, full)
    ensures Holds(n.log + [e], n.snap, full + [e])
    ensures forall i :: 0 <= i <= |full| ==> (full + [e])[..i] == full[..i]
  {}

  function Won(cfg: Config, n: Node): Node {
    SaveLog(AppendLocal(BecomeLeader(cfg, n), Noop))
  }

  /** A leader's log with one more entry, persisted. */
  lemma LongerNode(tier: nat, c: Core, d: Core, v: NodeId, n: Node, n': Node, e: LogEntry)
    requires CoreOk(tier, c) && Extends(tier, c, d, v) && NodeOk(tier, c, v, n)
    requires d.members[v] == c.members[v].(role := Leader, log := c.members[v].log + [e])
    requires n' == SaveLog(n.(role := Leader, log := n.log + [e], leader := n'.leader, next := n'.next, matched := n'.matched))
    requires tier >= 1 ==> MatchedOk(d, v, n')
    ensures Phase(tier, c, d, v, n, n')
  {
    hide Base, Safe;
    AppendHolds(n, c.members[v].log, e);
    if tier >= 1 {
      CommitFacts(c, v);
      SettledGrow(c, d, v, n.applies);
    }
    OneWrite(tier, c, d, v, n, n');
  }

  lemma NextIsFresh(c: Core, v: NodeId, n: Node, command: Command)
    requires Base(c) && v in c.members && NodeShape(n, c.members[v])
    ensures Fresh(c, v, NextEntry(n, command))
  {
    LogOkNumbered(c, c.members[v].log, c.members[v].term);
    ViewLast(n.log, n.snap, c.members[v].log);
  }

  lemma WinPhase(tier: nat, c: Core, cfg: Config, n: Node)
    requires CoreOk(tier, c) && cfg.id in c.servers && NodeOk(tier, c, cfg.id, n) && n.role == Candidate
    requires Quorum(c, Voters(c, n.hard.term, cfg.id))
    ensures Phase(tier, c, Win(c, cfg.id, NextEntry(n, Noop)), cfg.id, n, Won(cfg, n))
  {
    hide Base, Safe, Grows;
    var v, e := cfg.id, NextEntry(n, Noop);
    NextIsFresh(c, v, n, Noop);
    WinBase(c, v, e);
    if tier >= 1 { WinSafe(c, v, e); }
    LongerNode(tier, c, Win(c, v, e), v, n, Won(cfg, n), e);
  }

  lemma AppendMatched(c: Core, v: NodeId, n: Node, command: Command)
    requires v in c.members && MatchedOk(c, v, n) && NodeShape(n, c.members[v])
    ensures MatchedOk(Append(c, v, NextEntry(n, command)), v, SaveLog(AppendLocal(n, command)))
  {
    var e := NextEntry(n, command);
    var d := Append(c, v, e);
    forall p: NodeId ensures AckOf(c, p, n.hard.term) <= AckOf(d, p, n.hard.term) {
      RaisedAck(c, d, v, n.hard.term, |c.members[v].log + [e]|, p, n.hard.term);
    }
  }

  lemma AppendPhase(tier: nat, c: Core, v: NodeId, n: Node, command: Command)
    requires CoreOk(tier, c) && v in c.servers && NodeOk(tier, c, v, n) && n.role == Leader
    ensures Phase(tier, c, Append(c, v, NextEntry(n, command)), v, n, SaveLog(AppendLocal(n, command)))
  {
    hide Base, Safe, Grows;
    var e := NextEntry(n, command);
    NextIsFresh(c, v, n, command);
    AppendBase(c, v, e);
    if tier >= 1 {
      AppendSafe(c, v, e);
      AppendMatched(c, v, n, command);
    }
    LongerNode(tier, c, Append(c, v, e), v, n, SaveLog(AppendLocal(n, command)), e);
  }

  // --------------------------------------------------------- commit and snapshot

  /** A snapshot written over a log that still has its entries is refused at start. */
  lemma TornSnapshotRefused(d: Disk, snap: Option<Snapshot>)
    requires Contiguous(d.log, d.snap) && |d.log| > 0 && SnapIndex(snap) != SnapIndex(d.snap)
    ensures Recover(d.(snap := snap), [], []).None?
  {
    assert d.log[0].index == SnapIndex(d.snap) + 1;
  }

  /** Between setting the commit index and persisting it. */
  ghost predicate MidBounds(n: Node) {
    SnapIndex(n.snap) <= n.hard.applied <= n.hard.commit && Stored(n).hard.commit <= n.hard.commit
  }

  ghost predicate Mid(tier: nat, c: Core, v: NodeId, n: Node)
    requires v in c.members
  {
    && NodeShape(n, c.members[v])
    && (tier >= 1 ==> MidBounds(n) && MatchedOk(c, v, n) && SettledOk(c, v, n.applies))
    && (tier >= 2 ==> NodeImage(n, c.members[v].log))
  }

  /** The entries applied on the way to `upto` belong to the committed prefix. */
  lemma RangeApplied(c: Core, v: NodeId, from: nat, upto: nat)
    requires Safe(c) && v in c.members && from <= upto <= c.members[v].commit <= |c.members[v].log|
    ensures SettledOk(c, v, c.members[v].log[from..upto])
  {
    var m := c.members[v];
    assert MemberCommitOk(c, v);
    LogOkNumbered(c, m.log, m.term);
    CommittedPrefix(c, m.term, m.log[..m.commit], m.log[..upto]);
    var es := m.log[from..upto];
    forall a | a in es ensures a in m.log[..upto] {
      var k :| 0 <= k < |es| && es[k] == a;
      assert m.log[..upto][from + k] == a;
    }
    PrefixCounted(c, v, m.term, m.log[..upto], es);
  }

  lemma ApplyThroughEntries(n: Node, full: Log, upto: nat)
    requires Holds(n.log, n.snap, full) && SnapIndex(n.snap) <= n.hard.applied <= upto <= |full|
    ensures ApplyThrough(n, upto) ==
            n.(image := Replay(n.image, full[n.hard.applied..upto]), applies := n.applies + full[n.hard.applied..upto],
               hard := n.hard.(applied := upto))
  {
    hide Replay;
    var from, base := n.hard.applied, SnapIndex(n.snap);
    SubSlice(full, base, from - base, upto - base);
    assert from < upto || full[from..upto] == [];
  }

  lemma MidApply(tier: nat, c: Core, v: NodeId, n: Node, upto: nat)
    requires CoreOk(tier, c) && v in c.members && Mid(tier, c, v, n)
    requires SnapIndex(n.snap) <= upto <= |c.members[v].log|
    requires tier >= 1 ==> n.hard.applied <= upto <= n.hard.commit <= |c.members[v].log|
    ensures Mid(tier, c, v, ApplyThrough(n, upto)) && ApplyThrough(n, upto).writes == n.writes
    ensures n.applies <= ApplyThrough(n, upto).applies
    ensures tier >= 1 ==> ApplyThrough(n, upto).hard == n.hard.(applied := upto)
    ensures tier >= 1 ==> ApplyThrough(n, upto).applies == n.applies + c.members[v].log[n.hard.applied..upto]
  {
    if tier >= 1 {
      ApplyThroughEntries(n, c.members[v].log, upto);
      RangeApplied(c, v, n.hard.applied, upto);
      ReplayPrefix(c.members[v].log, n.hard.applied, upto);
    }
  }

  /** Pruning keeps the node in step with the same complete log. */
  lemma SnapshotShape(n: Node, m: Member, threshold: nat)
    requires NodeShape(n, m) && Numbered(m.log) && MaybeSnapshot(threshold, n).0 != n
    ensures var n' := MaybeSnapshot(threshold, n).0;
            && NodeShape(n', m) && (NodeImage(n, m.log) ==> NodeImage(n', m.log))
            && SnapIndex(n'.snap) == n.hard.applied
            && n' == n.(snap := n'.snap, log := n'.log, writes := n'.writes)
            && SnapIndex(n.snap) < n.hard.applied && |n.log| > 0 && Contiguous(n.log, n.snap)
            && n'.writes == n.writes + [Write(Stored(n).(snap := n'.snap), |n.applies|), Write(Stored(n'), |n.applies|)]
            && Stored(n').hard == Stored(n).hard
  {
    hide Holds, Numbered, DropThrough, TermAt, Contiguous, Replay;
    ViewLast(n.log, n.snap, m.log);
    ViewTerm(n.log, n.snap, m.log, n.hard.applied);
    HoldsBounds(n.log, n.snap, m.log);
    ViewDrop(n.log, n.snap, m.log, MaybeSnapshot(threshold, n).0.snap);
  }

  lemma HoldsBounds(log: Log, snap: Option<Snapshot>, full: Log)
    requires Holds(log, snap, full)
    ensures SnapIndex(snap) <= |full| && |log| == |full| - SnapIndex(snap)
  {}

  lemma SnapshotTaken(tier: nat, c: Core, v: NodeId, n: Node, threshold: nat)
    requires CoreOk(tier, c) && v in c.members && Mid(tier, c, v, n) && tier >= 1
    requires n.hard.applied == n.hard.commit
    ensures MaybeSnapshot(threshold, n).1
  {
    var m := c.members[v];
    LogOkNumbered(c, m.log, m.term);
    assert MemberCommitOk(c, v);
    ViewTerm(n.log, n.snap, m.log, n.hard.applied);
  }

  /** Creating a snapshot: the first write is refused at start, the second continues from c. */
  lemma SnapshotImages(tier: nat, c: Core, v: NodeId, n: Node, threshold: nat)
    requires CoreOk(tier, c) && v in c.members && Mid(tier, c, v, n)
    requires tier >= 1 ==> n.hard.applied == n.hard.commit
    ensures var (n', ok) := MaybeSnapshot(threshold, n);
            && Mid(tier, c, v, n') && (tier >= 1 ==> ok && n'.hard == n.hard)
            && NewImagesOk(tier, c, v, n, n') && n'.applies == n.applies
            && HandedBy(n', |n.writes| - 1) == n.applies
  {
    hide Base, Safe, Holds, Numbered, Replay, SettledOk, HandedOk, TermAt, DropThrough, Recover, AckOf, NodeImage, CrashOk, Extends;
    var n' := MaybeSnapshot(threshold, n).0;
    if tier >= 1 { SnapshotTaken(tier, c, v, n, threshold); }
    if n' != n {
      MemberNumbered(c, v);
      SnapshotShape(n, c.members[v], threshold);
      SnapshotWrites(tier, c, v, n, n');
    }
  }

  lemma SnapshotWrites(tier: nat, c: Core, v: NodeId, n: Node, n': Node)
    requires CoreOk(tier, c) && v in c.members && Mid(tier, c, v, n') && (tier >= 1 ==> SnapIndex(n'.snap) == n'.hard.commit)
    requires n'.applies == n.applies && Contiguous(n.log, n.snap) && |n.log| > 0 && SnapIndex(n.snap) < SnapIndex(n'.snap)
    requires Stored(n).log == n.log && Stored(n).snap == n.snap
    requires n'.writes == n.writes + [Write(Stored(n).(snap := n'.snap), |n.applies|), Write(Stored(n'), |n.applies|)]
    ensures NewImagesOk(tier, c, v, n, n') && HandedBy(n', |n.writes| - 1) == n.applies
  {
    hide CoreOk, Extends, DiskOk, Mid, Contiguous;
    TornSnapshotRefused(Stored(n), n'.snap);
    PrunedCrashOk(tier, c, v, n');
    assert HandedBy(n', |n.writes|) == n.applies && HandedBy(n', |n.writes| + 1) == n.applies;
  }

  lemma PrunedCrashOk(tier: nat, c: Core, v: NodeId, n: Node)
    requires CoreOk(tier, c) && v in c.members && Mid(tier, c, v, n) && (tier >= 1 ==> SnapIndex(n.snap) == n.hard.commit)
    ensures CrashOk(tier, c, v, Stored(n), n.applies)
  {
    hide Base, Safe, DiskOk;
    PrunedDiskOk(tier, c, v, n);
    ExtendsSelf(tier, c, v);
    if tier >= 1 { SettledHanded(c, v, n.applies); }
    assert Continues(tier, c, c, v, Stored(n), n.applies);
  }

  lemma PrunedDiskOk(tier: nat, c: Core, v: NodeId, n: Node)
    requires CoreOk(tier, c) && v in c.members && Mid(tier, c, v, n)
    requires tier >= 1 ==> SnapIndex(n.snap) == n.hard.commit
    ensures DiskOk(tier, c, v, Stored(n))
  {
    if tier >= 1 { assert MemberCommitOk(c, v); }
  }

  lemma MidFacts(tier: nat, c: Core, v: NodeId, n: Node)
    requires CoreOk(tier, c) && v in c.members && Mid(tier, c, v, n)
    ensures |n.writes| > 0 && SnapIndex(n.snap) + |n.log| == |c.members[v].log|
    ensures tier >= 1 ==> SnapIndex(n.snap) <= n.hard.applied <= n.hard.commit <= |c.members[v].log|
  {
    if tier >= 1 { CommitFacts(c, v); }
  }

  /** After the entries have been handed over, a snapshot may follow. */
  lemma MidFinish(tier: nat, c: Core, v: NodeId, n: Node, x: Node, threshold: nat)
    requires CoreOk(tier, c) && v in c.members && Mid(tier, c, v, x) && (tier >= 1 ==> x.hard.applied == x.hard.commit)
    requires x.writes == n.writes && n.applies <= x.applies && |n.writes| > 0
    ensures var (n', ok) := MaybeSnapshot(threshold, x);
            && Mid(tier, c, v, n') && (tier >= 1 ==> ok && n'.hard == x.hard)
            && NewImagesOk(tier, c, v, n, n') && HandedBy(n', |n.writes| - 1) == n'.applies == x.applies
  {
    hide CoreOk, Mid, NewImagesOk, MaybeSnapshot, HandedBy;
    SnapshotImages(tier, c, v, x, threshold);
    SameWrites(tier, c, v, n, x, MaybeSnapshot(threshold, x).0);
  }

  lemma SnapshotReached(tier: nat, c: Core, v: NodeId, n: Node)
    requires v in c.members && Mid(tier, c, v, n) && tier == 0
    ensures Mid(tier, c, v, n.(hard := n.hard.(applied := SnapIndex(n.snap))))
  {}

  lemma MidApplyCommitted(tier: nat, c: Core, v: NodeId, n: Node, cfg: Config)
    requires CoreOk(tier, c) && v in c.members && Mid(tier, c, v, n)
    ensures |n.writes| > 0
    ensures var (n', ok) := ApplyCommitted(cfg, n);
            && Mid(tier, c, v, n') && (tier >= 1 ==> ok && n'.hard.applied == n'.hard.commit)
            && NewImagesOk(tier, c, v, n, n') && HandedBy(n', |n.writes| - 1) == n'.applies
            && (tier >= 1 ==> n.hard.applied <= n.hard.commit <= |c.members[v].log|
                              && n'.applies == n.applies + c.members[v].log[n.hard.applied..n.hard.commit])
  {
    hide CoreOk, Mid, NewImagesOk, MaybeSnapshot, HandedBy, ApplyThrough;
    MidFacts(tier, c, v, n);
    if n.hard.applied >= n.hard.commit {
      MidFinish(tier, c, v, n, n, cfg.threshold);
    } else if SnapIndex(n.snap) >= n.hard.commit {
      SnapshotReached(tier, c, v, n);
      MidFinish(tier, c, v, n, n.(hard := n.hard.(applied := SnapIndex(n.snap))), cfg.threshold);
    } else if n.hard.commit <= SnapIndex(n.snap) + |n.log| {
      MidApply(tier, c, v, n, n.hard.commit);
      MidFinish(tier, c, v, n, ApplyThrough(n, n.hard.commit), cfg.threshold);
    } else {
      var x := ApplyThrough(n, SnapIndex(n.snap) + |n.log|);
      MidApply(tier, c, v, n, SnapIndex(n.snap) + |n.log|);
      NoNewImages(tier, c, v, x);
      SameWrites(tier, c, v, n, x, x);
    }
  }

  lemma NoNewImages(tier: nat, c: Core, v: NodeId, n: Node)
    requires |n.writes| > 0
    ensures NewImagesOk(tier, c, v, n, n) && HandedBy(n, |n.writes| - 1) == n.applies
  {}

  /** Handing over entries writes nothing. */
  lemma SameWrites(tier: nat, c: Core, v: NodeId, n: Node, x: Node, n': Node)
    requires x.writes == n.writes && n.applies <= x.applies && NewImagesOk(tier, c, v, x, n')
    ensures NewImagesOk(tier, c, v, n, n')
  {
    hide CrashOk;
  }

  /** Raising the commit index in history d, applying, snapshotting and persisting. */
  lemma CommitPhase(tier: nat, c: Core, d: Core, v: NodeId, n: Node, cfg: Config, k: nat)
    requires CoreOk(tier, c) && v in c.members && NodeOk(tier, c, v, n)
    requires Extends(tier, c, d, v) && d.members[v] == c.members[v].(commit := k)
    requires tier >= 1 ==> n.hard.commit <= k <= |c.members[v].log| && HandedOk(c, v, c.members[v].log[..k])
    ensures var (n', ok) := CommitTo(cfg, n, k);
            Phase(tier, c, d, v, n, n') && (tier >= 1 ==> ok)
  {
    hide Base, Safe, Grows, Holds, Replay, SettledOk, HandedOk, Recover, ApplyCommitted, AckOf, CrashOk;
    var a := n.(hard := n.hard.(commit := k));
    if tier >= 1 {
      SettledGrow(c, d, v, n.applies);
      MatchedGrows(c, d, v, n);
    }
    assert Mid(tier, d, v, a);
    MidApplyCommitted(tier, d, v, a, cfg);
    var (b, ok) := ApplyCommitted(cfg, a);
    if tier >= 1 {
      SettledHanded(c, v, n.applies);
      SliceHanded(c, v, c.members[v].log, n.hard.applied, k, n.applies);
    }
    StoredCrashOk(tier, c, v, n, b.applies);
    forall i | |n.writes| <= i < |b.writes| ensures CrashOk(tier, c, v, b.writes[i].disk, HandedBy(b, i)) {
      CrashEarlier(tier, c, d, v, b.writes[i].disk, HandedBy(b, i));
    }
    if ok { PersistedImages(tier, c, d, v, n, b); }
  }

  lemma SliceHanded(c: Core, v: NodeId, l: Log, i: nat, k: nat, applies: seq<LogEntry>)
    requires HandedOk(c, v, applies) && i <= k <= |l| && HandedOk(c, v, l[..k])
    ensures HandedOk(c, v, applies + l[i..k])
  {
    hide Handed;
    forall a | a in l[i..k] ensures Handed(c, v, a) {
      var j :| 0 <= j < |l[i..k]| && l[i..k][j] == a;
      assert l[..k][i + j] == a;
    }
  }

  /** Persisting the hard state ends a commit. */
  lemma PersistedImages(tier: nat, c: Core, d: Core, v: NodeId, n: Node, b: Node)
    requires CoreOk(tier, c) && Extends(tier, c, d, v) && NodeOk(tier, d, v, SaveHard(b))
    requires NewImagesOk(tier, c, v, n, b) && |n.writes| > 0 && HandedBy(b, |n.writes| - 1) == b.applies
    requires CrashOk(tier, c, v, Stored(n), b.applies)
    ensures ImagesOk(tier, c, v, n, SaveHard(b))
  {
    hide CoreOk, Extends, CrashOk;
    var e := SaveHard(b);
    LastCrashOk(tier, c, d, v, e);
    assert HandedBy(e, |n.writes| - 1) == b.applies;
    forall i | |n.writes| <= i < |e.writes| ensures CrashOk(tier, c, v, e.writes[i].disk, HandedBy(e, i)) {
      if i < |b.writes| {
        assert e.writes[i] == b.writes[i];
        assert HandedBy(e, i) == HandedBy(b, i);
      }
    }
  }

  lemma SnapshotPhase(tier: nat, c: Core, v: NodeId, n: Node, threshold: nat)
    requires CoreOk(tier, c) && v in c.members && NodeOk(tier, c, v, n)
    ensures Phase(tier, c, c, v, n, MaybeSnapshot(threshold, n).0)
  {
    hide Base, Safe, CrashOk;
    SnapshotImages(tier, c, v, n, threshold);
    ExtendsSelf(tier, c, v);
    QuietCrashOk(tier, c, v, n);
  }

  // ------------------------------------------------------------ follower phases

  lemma MatchingLogs(c: Core, a: Log, t: nat, b: Log, u: nat)
    requires LogOk(c, a, t) && LogOk(c, b, u)
    ensures Matching(a, b)
  {
    forall k: nat ensures MatchingAt(a, b, k) {
      if k < |a| && k < |b| && a[k].term == b[k].term { SameTermSamePrefix(c, a, b, t, u, k); }
    }
  }

  function Merged(n: Node, req: AppendRequest): Node {
    match MergeEntries(n.log, n.snap, req)
    case Changed(log) => SaveLog(n.(log := log))
    case _ => n
  }

  ghost function TakenOver(c: Core, v: NodeId, k: nat): Core
    requires v in c.members && c.members[v].term in c.logs && k <= |c.logs[c.members[v].term]|
  {
    Ack(Replace(c, v, k), v, k)
  }

  lemma TakeOverExtends(tier: nat, c: Core, v: NodeId, k: nat)
    requires CoreOk(tier, c) && v in c.servers && c.members[v].role == Follower
    requires c.members[v].term in c.logs && k <= |c.logs[c.members[v].term]|
    ensures Extends(tier, c, Replace(c, v, k), v) && Extends(tier, c, TakenOver(c, v, k), v)
    ensures tier >= 1 ==> c.members[v].commit <= |c.members[v].log| &&
                          c.members[v].log[..c.members[v].commit] <= Replace(c, v, k).members[v].log
    ensures c.logs[c.members[v].term][..k] <= Replace(c, v, k).members[v].log
  {
    hide Base, Safe;
    var d := Replace(c, v, k);
    ReplaceBase(c, v, k);
    AckBase(d, v, k);
    if tier >= 1 {
      ReplaceSafe(c, v, k);
      AckSafe(d, v, k);
    }
    ExtendsTransitive(tier, c, d, Ack(d, v, k), v);
  }

  /** A longer or equal log with the same applied prefix. */
  lemma NodeKept(tier: nat, c: Core, d: Core, v: NodeId, n: Node, n': Node)
    requires CoreOk(tier, c) && Extends(tier, c, d, v) && NodeOk(tier, c, v, n)
    requires n' == n.(log := n'.log, writes := n'.writes) && NodeShape(n', d.members[v]) && Stored(n').hard == Stored(n).hard
    requires n.role == Follower
    requires tier >= 1 ==> n.hard.commit <= |c.members[v].log| && c.members[v].log[..n.hard.commit] <= d.members[v].log
    ensures NodeOk(tier, d, v, n')
  {
    if tier >= 1 { SettledGrow(c, d, v, n.applies); }
    if tier >= 2 {
      var p, f, g := c.members[v].log[..n.hard.commit], c.members[v].log, d.members[v].log;
      assert g[..n.hard.commit] == p;
      if n.snap.Some? {
        assert g[..n.snap.value.index] == p[..n.snap.value.index] == f[..n.snap.value.index];
      }
    }
  }

  lemma MergeHolds(c: Core, v: NodeId, n: Node, req: AppendRequest)
    requires Base(c) && v in c.members && NodeShape(n, c.members[v])
    requires n.hard.term in c.logs && Carries(req, c.logs[n.hard.term])
    requires SnapIndex(n.snap) <= req.prevIndex && TermAt(n.log, n.snap, req.prevIndex) == Some(req.prevTerm)
    ensures var m := MergeEntries(n.log, n.snap, req);
            var full := Adjusted(c.members[v].log, c.logs[n.hard.term], req.prevIndex + |req.entries|);
            && (m.Unchanged? || m.Changed?)
            && (m.Unchanged? ==> full == c.members[v].log)
            && (m.Changed? ==> full == c.logs[n.hard.term][..req.prevIndex + |req.entries|])
            && Holds(MergedLog(n.log, m), n.snap, full)
  {
    var m, t := c.members[v], n.hard.term;
    var l := c.logs[t];
    LogOkNumbered(c, m.log, m.term);
    LogOkNumbered(c, l, t);
    MatchingLogs(c, m.log, m.term, l, t);
    ViewTerm(n.log, n.snap, m.log, req.prevIndex);
    if req.prevIndex > 0 { assert MatchingAt(m.log, l, req.prevIndex - 1); }
    MergeTakesOver(n.log, n.snap, m.log, req, l);
  }

  lemma MergePhase(tier: nat, c: Core, v: NodeId, n: Node, req: AppendRequest)
    requires CoreOk(tier, c) && v in c.servers && NodeOk(tier, c, v, n) && n.role == Follower
    requires n.hard.term in c.logs && Carries(req, c.logs[n.hard.term])
    requires SnapIndex(n.snap) <= req.prevIndex && TermAt(n.log, n.snap, req.prevIndex) == Some(req.prevTerm)
    ensures var m := MergeEntries(n.log, n.snap, req);
            && (m.Unchanged? || m.Changed?)
            && (m.Changed? ==> LastIndex(Merged(n, req).log, n.snap) == req.prevIndex + |req.entries|)
            && Phase(tier, c, TakenOver(c, v, req.prevIndex + |req.entries|), v, n, Merged(n, req))
  {
    hide Base, Safe, Grows, MergeEntries;
    var k := req.prevIndex + |req.entries|;
    MergeHolds(c, v, n, req);
    TakeOverExtends(tier, c, v, k);
    RelogPhase(tier, c, TakenOver(c, v, k), v, n, Merged(n, req));
    if MergeEntries(n.log, n.snap, req).Changed? { LeaderPrefixLast(c, n, req); }
  }

  lemma LeaderPrefixLast(c: Core, n: Node, req: AppendRequest)
    requires Base(c) && n.hard.term in c.logs && Carries(req, c.logs[n.hard.term])
    requires Holds(Merged(n, req).log, n.snap, c.logs[n.hard.term][..req.prevIndex + |req.entries|])
    ensures LastIndex(Merged(n, req).log, n.snap) == req.prevIndex + |req.entries|
  {
    hide MergeEntries;
    LogOkNumbered(c, c.logs[n.hard.term], n.hard.term);
    ViewLast(Merged(n, req).log, n.snap, c.logs[n.hard.term][..req.prevIndex + |req.entries|]);
  }

  lemma RelogPhase(tier: nat, c: Core, d: Core, v: NodeId, n: Node, n': Node)
    requires CoreOk(tier, c) && Extends(tier, c, d, v) && NodeOk(tier, c, v, n) && n.role == Follower
    requires n' == SaveLog(n.(log := n'.log)) || n' == n
    requires d.members[v] == c.members[v].(log := d.members[v].log) && Holds(n'.log, n.snap, d.members[v].log)
    requires tier >= 1 ==> n.hard.commit <= |c.members[v].log| && c.members[v].log[..n.hard.commit] <= d.members[v].log
    ensures Phase(tier, c, d, v, n, n')
  {
    hide Base, Safe;
    NodeKept(tier, c, d, v, n, n');
    if n' == n { NoWrite(tier, c, d, v, n, n'); } else { OneWrite(tier, c, d, v, n, n'); }
  }

  // ------------------------------------------------------------- install phases

  function Installed(n: Node, req: InstallRequest): Node {
    var d := SaveLog(SaveSnapshot(n.(log := InstallLog(n, req), snap := Some(Snapshot(req.lastIndex, req.lastTerm, req.image)))));
    SaveHard(d.(image := req.image, hard := d.hard.(commit := Max(d.hard.commit, req.lastIndex),
                                                     applied := Max(d.hard.applied, req.lastIndex))))
  }

  ghost function InstalledCore(c: Core, v: NodeId, k: nat): Core
    requires v in c.members && c.members[v].term in c.logs && k <= |c.logs[c.members[v].term]|
  {
    Commit(TakenOver(c, v, k), v, Max(c.members[v].commit, k))
  }

  /** The snapshot of a leader with log l. */
  ghost predicate Depicts(req: InstallRequest, l: Log) {
    1 <= req.lastIndex <= |l| && req.lastTerm == l[req.lastIndex - 1].term
  }

  lemma InstallTakesOver(n: Node, full: Log, req: InstallRequest, l: Log)
    requires Holds(n.log, n.snap, full) && Numbered(full) && Depicts(req, l) && Matching(full, l)
    requires SnapIndex(n.snap) < req.lastIndex
    ensures Holds(InstallLog(n, req), Some(Snapshot(req.lastIndex, req.lastTerm, req.image)), Adjusted(full, l, req.lastIndex))
    ensures n.log == [] ==> InstallLog(n, req) == []
  {
    ViewTerm(n.log, n.snap, full, req.lastIndex);
    assert MatchingAt(full, l, req.lastIndex - 1);
    var k := req.lastIndex;
    if k <= |full| && full[..k] == l[..k] {
      assert full[..k][k - 1] == l[..k][k - 1];
      ViewDrop(n.log, n.snap, full, Some(Snapshot(req.lastIndex, req.lastTerm, req.image)));
    }
  }

  lemma InstallExtends(tier: nat, c: Core, v: NodeId, k: nat)
    requires CoreOk(tier, c) && v in c.servers && c.members[v].role == Follower
    requires c.members[v].term in c.logs && k <= |c.logs[c.members[v].term]|
    requires tier >= 1 ==> Committed(c, c.members[v].term, c.logs[c.members[v].term][..k])
    ensures Extends(tier, c, InstalledCore(c, v, k), v)
    ensures tier >= 1 ==> InstalledCore(c, v, k).members[v].commit <= |InstalledCore(c, v, k).members[v].log|
  {
    hide Base, Safe;
    var t, d := c.members[v].term, TakenOver(c, v, k);
    var x := Max(c.members[v].commit, k);
    TakeOverExtends(tier, c, v, k);
    CommitBase(d, v, x);
    if tier >= 1 {
      var g := d.members[v].log;
      CommitFacts(d, v);
      if x == k {
        assert g[..k] == c.logs[t][..k];
        CommittedGrows(c, d, t, t, g[..k]);
      }
      CommitSafe(d, v, x);
    }
    ExtendsTransitive(tier, c, d, InstalledCore(c, v, k), v);
  }

  lemma InstallNode(tier: nat, c: Core, v: NodeId, n: Node, req: InstallRequest)
    requires CoreOk(tier, c) && v in c.servers && NodeOk(tier, c, v, n) && n.role == Follower
    requires n.hard.term in c.logs && Depicts(req, c.logs[n.hard.term]) && SnapIndex(n.snap) < req.lastIndex
    requires tier >= 1 ==> Committed(c, n.hard.term, c.logs[n.hard.term][..req.lastIndex])
    requires tier >= 2 ==> req.image == Replay(map[], c.logs[n.hard.term][..req.lastIndex]) && n.hard.applied <= req.lastIndex
    ensures NodeOk(tier, InstalledCore(c, v, req.lastIndex), v, Installed(n, req))
    ensures n.log == [] ==> InstallLog(n, req) == []
  {
    hide Base, Safe, Grows, Replay, Holds, SettledOk, HandedOk, InstallLog, LogOk;
    var m, l, k := c.members[v], c.logs[n.hard.term], req.lastIndex;
    var d, n' := InstalledCore(c, v, k), Installed(n, req);
    InstallHolds(c, v, n, req);
    InstallExtends(tier, c, v, k);
    if tier >= 1 { SettledGrow(c, d, v, n.applies); }
    if tier >= 2 { assert d.members[v].log[..k] == l[..k]; }
  }

  lemma InstallHolds(c: Core, v: NodeId, n: Node, req: InstallRequest)
    requires Base(c) && v in c.members && NodeShape(n, c.members[v])
    requires n.hard.term in c.logs && Depicts(req, c.logs[n.hard.term]) && SnapIndex(n.snap) < req.lastIndex
    ensures Holds(InstallLog(n, req), Some(Snapshot(req.lastIndex, req.lastTerm, req.image)),
                  Adjusted(c.members[v].log, c.logs[n.hard.term], req.lastIndex))
    ensures n.log == [] ==> InstallLog(n, req) == []
  {
    var m, l := c.members[v], c.logs[n.hard.term];
    LogOkNumbered(c, m.log, m.term);
    MatchingLogs(c, m.log, m.term, l, n.hard.term);
    InstallTakesOver(n, m.log, req, l);
  }

  lemma InstallPhase(tier: nat, c: Core, v: NodeId, n: Node, req: InstallRequest)
    requires CoreOk(tier, c) && v in c.servers && NodeOk(tier, c, v, n) && n.role == Follower
    requires n.hard.term in c.logs && Depicts(req, c.logs[n.hard.term]) && SnapIndex(n.snap) < req.lastIndex
    requires tier >= 1 ==> Committed(c, n.hard.term, c.logs[n.hard.term][..req.lastIndex])
    requires tier >= 2 ==> req.image == Replay(map[], c.logs[n.hard.term][..req.lastIndex]) && n.hard.applied <= req.lastIndex
    ensures Phase(tier, c, InstalledCore(c, v, req.lastIndex), v, n, Installed(n, req))
  {
    hide Base, Safe, Grows;
    var d, n' := InstalledCore(c, v, req.lastIndex), Installed(n, req);
    InstallExtends(tier, c, v, req.lastIndex);
    InstallNode(tier, c, v, n, req);
    InstallFirstWrite(tier, c, d, v, n, n', Stored(n).(snap := n'.snap), Stored(n).(snap := n'.snap, log := n'.log));
    ThreeWrites(tier, c, d, v, n, n', Stored(n).(snap := n'.snap), Stored(n).(snap := n'.snap, log := n'.log));
  }

  lemma ThreeWrites(tier: nat, c: Core, d: Core, v: NodeId, n: Node, n': Node, w1: Disk, w2: Disk)
    requires CoreOk(tier, c) && Extends(tier, c, d, v) && v in c.members && NodeOk(tier, c, v, n) && NodeOk(tier, d, v, n')
    requires n'.applies == n.applies
    requires n'.writes == n.writes + [Write(w1, |n.applies|), Write(w2, |n.applies|), Write(Stored(n'), |n.applies|)]
    requires CrashOk(tier, c, v, w1, n.applies) && CrashOk(tier, c, v, w2, n.applies)
    ensures Phase(tier, c, d, v, n, n')
  {
    hide CoreOk, Extends, CrashOk;
    QuietCrashOk(tier, c, v, n);
    LastCrashOk(tier, c, d, v, n');
    var i := |n.writes|;
    assert n'.writes[i].disk == w1 && n'.writes[i + 1].disk == w2 && n'.writes[i + 2].disk == Stored(n');
    forall k: nat | i - 1 <= k < |n'.writes| ensures HandedBy(n', k) == n.applies {}
  }

  lemma InstallFirstWrite(tier: nat, c: Core, d: Core, v: NodeId, n: Node, n': Node, w1: Disk, w2: Disk)
    requires CoreOk(tier, c) && Extends(tier, c, d, v) && v in c.members && NodeOk(tier, c, v, n) && NodeOk(tier, d, v, n')
    requires d.members[v].term == c.members[v].term && d.members[v].voted == c.members[v].voted
    requires w1 == Stored(n).(snap := n'.snap) && w2 == w1.(log := n'.log)
    requires SnapIndex(n.snap) < SnapIndex(n'.snap) && (n.log == [] ==> n'.log == [])
    requires tier >= 1 ==> n'.hard.commit == Max(n.hard.commit, SnapIndex(n'.snap))
    requires n'.applies == n.applies
    ensures CrashOk(tier, c, v, w1, n.applies) && CrashOk(tier, c, v, w2, n.applies)
  {
    LogOkNumbered(c, c.members[v].log, c.members[v].term);
    ViewLast(n.log, n.snap, c.members[v].log);
    if tier >= 1 { assert MemberCommitOk(d, v); }
    if tier >= 1 { SettledHanded(d, v, n.applies); }
    assert Continues(tier, c, d, v, w2, n.applies);
    if n.log != [] { TornSnapshotRefused(Stored(n), n'.snap); } else { assert w1 == w2; }
  }

  // -------------------------------------------------------------- other phases

  lemma MatchedPhase(tier: nat, c: Core, v: NodeId, n: Node, peer: NodeId, i: nat, next: map<NodeId, nat>)
    requires CoreOk(tier, c) && v in c.members && NodeOk(tier, c, v, n)
    requires tier >= 1 ==> i <= AckOf(c, peer, n.hard.term)
    ensures Phase(tier, c, c, v, n, n.(matched := n.matched[peer := i], next := next))
  {
    hide Base, Safe;
    ExtendsSelf(tier, c, v);
    NoWrite(tier, c, c, v, n, n.(matched := n.matched[peer := i], next := next));
  }

  ghost function RestartCore(c: Core, v: NodeId, k: nat): Core
    requires v in c.members
  {
    Commit(Adopt(c, v, c.members[v].term), v, k)
  }

  lemma RestartExtends(tier: nat, c: Core, v: NodeId, k: nat)
    requires CoreOk(tier, c) && v in c.servers
    requires tier >= 1 ==> c.members[v].commit <= k <= |c.members[v].log| && Committed(c, c.members[v].term, c.members[v].log[..k])
    ensures Extends(tier, c, RestartCore(c, v, k), v)
  {
    hide Base, Safe;
    var t := c.members[v].term;
    var d := Adopt(c, v, t);
    AdoptBase(c, v, t);
    CommitBase(d, v, k);
    if tier >= 1 {
      AdoptSafe(c, v, t);
      CommittedGrows(c, d, t, t, c.members[v].log[..k]);
      CommitSafe(d, v, k);
    }
    GrowsTransitive(c, d, Commit(d, v, k));
  }

  /** The constructor, on an image that fits the history. */
  lemma RestartNode(tier: nat, c: Core, v: NodeId, x: Disk, writes: seq<Write>, applies: seq<LogEntry>)
    requires CoreOk(tier, c) && v in c.servers && DiskOk(tier, c, v, x)
    requires Recover(x, writes, applies).Some? && |writes| > 0 && writes[|writes| - 1].disk == x
    requires tier >= 1 ==> HandedOk(c, v, applies)
    ensures var n := Recover(x, writes, applies).value;
            Extends(tier, c, RestartCore(c, v, n.hard.commit), v) && NodeOk(tier, RestartCore(c, v, n.hard.commit), v, n)
  {
    hide Base, Safe, Grows, Replay, Numbered, Contiguous, LogOk, SettledOk, HandedOk, Committed;
    var n := Recover(x, writes, applies).value;
    var m, base, k := c.members[v], SnapIndex(x.snap), n.hard.commit;
    MemberNumbered(c, v);
    ViewLast(x.log, x.snap, m.log);
    RestartExtends(tier, c, v, k);
    SubSlice(m.log, base, 0, k - base);
    if tier >= 1 { RestartApplies(c, v, base, k, applies); }
    if tier >= 2 { RestartImage(m.log, x, k); }
  }

  lemma RestartApplies(c: Core, v: NodeId, base: nat, k: nat, applies: seq<LogEntry>)
    requires Safe(c) && v in c.servers && base <= k <= |c.members[v].log| && c.members[v].commit <= k
    requires Committed(c, c.members[v].term, c.members[v].log[..k]) && HandedOk(c, v, applies)
    ensures SettledOk(RestartCore(c, v, k), v, applies + c.members[v].log[base..k])
  {
    var d := RestartCore(c, v, k);
    RestartExtends(1, c, v, k);
    HandedGrow(c, d, v, applies);
    FollowerSettles(d, v, applies);
    RangeApplied(d, v, base, k);
  }

  lemma RestartImage(full: Log, x: Disk, k: nat)
    requires SnapIndex(x.snap) <= k <= |full| && SnapImageOk(x.snap, full)
    ensures Replay(if x.snap.Some? then x.snap.value.image else map[], full[SnapIndex(x.snap)..k]) == Replay(map[], full[..k])
  {
    ReplayPrefix(full, SnapIndex(x.snap), k);
    assert full[..0] == [];
  }
}
