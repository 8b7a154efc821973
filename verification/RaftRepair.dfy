/** Log repair between one leader and one follower, re-delivery, pruning, and what installing a
    snapshot over newer state does. */
module RaftRepair {
  import opened Basics
  import opened RaftTypes
  import opened RaftNode
  import opened RaftCore
  import opened RaftView

  // ------------------------------------------------------------- repair converges

  /** The two nodes during repair: the follower is not ahead of the leader's term, the leader's
      next index is past the follower's snapshot, and if the leader knows a term at that snapshot
      it is the follower's. The leader may have pruned past the follower. */
  ghost predicate Repairing(l: Node, f: Node, peer: NodeId) {
    && l.role == Leader && f.hard.term <= l.hard.term
    && Contiguous(l.log, l.snap) && Contiguous(f.log, f.snap)
    && (forall k :: 0 <= k < |l.log| ==> l.log[k].term >= 1)
    && peer in l.next && SnapIndex(f.snap) < l.next[peer] <= LastIndex(l.log, l.snap) + 1
    && (SnapIndex(l.snap) <= SnapIndex(f.snap) ==>
          TermAt(l.log, l.snap, SnapIndex(f.snap)) == TermAt(f.log, f.snap, SnapIndex(f.snap)))
  }

  /** The request of one attempt, with entries or as a heartbeat. */
  function Asked(lc: Config, l: Node, peer: NodeId, beat: bool): Outgoing {
    Prepare(lc, l, peer, beat).1
  }

  predicate Refused(fc: Config, f: Node, out: Outgoing) {
    out.SendAppend? && var r := OnAppend(fc, f, out.append).1; r.Answer? && !r.value.success
  }

  /** Leader and follower after one refused attempt. */
  function AfterRefusal(lc: Config, fc: Config, l: Node, f: Node, peer: NodeId, beat: bool): (Node, Node)
    requires Refused(fc, f, Asked(lc, l, peer, beat))
  {
    var (l1, out) := Prepare(lc, l, peer, beat);
    var (f1, r) := OnAppend(fc, f, out.append);
    (OnAppendReply(l1, out.append.term, peer, r.value).0, f1)
  }

  lemma Request(lc: Config, l: Node, f: Node, peer: NodeId, beat: bool)
    requires Repairing(l, f, peer) && Asked(lc, l, peer, beat).SendAppend?
    ensures Prepare(lc, l, peer, beat).0 == l && SnapIndex(l.snap) < l.next[peer]
    ensures var r := Asked(lc, l, peer, beat).append;
            && r.term == l.hard.term && r.prevIndex == l.next[peer] - 1
            && TermAt(l.log, l.snap, r.prevIndex) == Some(r.prevTerm)
            && r.entries == if beat then [] else EntriesFrom(l.log, l.snap, l.next[peer], lc.batch)
  {
    var p := l.next[peer] - 1;
    assert l.next[peer := l.next[peer]] == l.next;
    KnownTerm(l.log, l.snap, p);
  }

  lemma KnownTerm(log: Log, snap: Option<Snapshot>, p: nat)
    requires Contiguous(log, snap) && SnapIndex(snap) <= p <= LastIndex(log, snap)
    ensures TermAt(log, snap, p).Some?
  {}

  lemma {:induction false} ConflictBounds(log: Log, snap: Option<Snapshot>, i: nat, t: nat)
    requires i > SnapIndex(snap)
    ensures SnapIndex(snap) < ConflictIndex(log, snap, i, t) <= i
  {
    if i > SnapIndex(snap) + 1 && TermAt(log, snap, i - 1) == Some(t) { ConflictBounds(log, snap, i - 1, t); }
  }

  /** Entries a leader sends are never the misnumbered kind. */
  lemma {:induction false} SentInOrder(l: Node, i: nat, batch: nat, log: Log, snap: Option<Snapshot>, req: AppendRequest, j: nat)
    requires Contiguous(l.log, l.snap) && SnapIndex(l.snap) < i && req.prevIndex == i - 1
    requires req.entries == EntriesFrom(l.log, l.snap, i, batch) && j <= |req.entries|
    ensures var p := FirstStop(log, snap, req, j);
            p < |req.entries| ==> req.entries[p].index == req.prevIndex + p + 1
    decreases |req.entries| - j
  {
    hide TermAt;
    var p := FirstStop(log, snap, req, j);
    if p != j { SentInOrder(l, i, batch, log, snap, req, j + 1); }
  }

  lemma TakenOrThrown(cfg: Config, n: Node, req: AppendRequest)
    requires var p := FirstStop(n.log, n.snap, req, 0);
             p < |req.entries| ==> req.entries[p].index == req.prevIndex + p + 1
    ensures var r := TakeEntries(cfg, n, req).1;
            r.Threw? || r.value.success
  {
    hide FirstStop, GoodRun, CommitTo;
  }

  /** The new next index named by a refusal. */
  function FallBack(f: Node, prev: nat): nat {
    var t := TermAt(f.log, f.snap, prev);
    if t.Some? then ConflictIndex(f.log, f.snap, prev, t.value) else LastIndex(f.log, f.snap) + 1
  }

  /** A refusal inside repair: the previous entry is missing or has another term; the logs stay. */
  lemma RefusalMeans(lc: Config, fc: Config, l: Node, f: Node, peer: NodeId, beat: bool)
    requires Repairing(l, f, peer) && Refused(fc, f, Asked(lc, l, peer, beat))
    ensures var (l', f') := AfterRefusal(lc, fc, l, f, peer, beat);
            var prev, x := l.next[peer] - 1, FallBack(f, l.next[peer] - 1);
            && prev > SnapIndex(f.snap) && SnapIndex(f.snap) < x <= prev
            && l' == l.(next := l.next[peer := x])
            && f'.log == f.log && f'.snap == f.snap && f'.hard.term == l.hard.term
  {
    hide EntriesFrom, TakeEntries, ConflictIndex, Prepare, TermAt, FirstStop, Contiguous;
    Request(lc, l, f, peer, beat);
    var req := Asked(lc, l, peer, beat).append;
    var a := Recognise(f, req.term, req.leader);
    var t := TermAt(f.log, f.snap, req.prevIndex);
    if !beat { SentInOrder(l, l.next[peer], lc.batch, a.log, a.snap, req, 0); }
    TakenOrThrown(fc, a, req);
    LastAtLeast(f.log, f.snap);
    if t.None? {
      if req.prevIndex <= LastIndex(f.log, f.snap) && SnapIndex(f.snap) <= req.prevIndex { KnownTerm(f.log, f.snap, req.prevIndex); }
    } else if t.value != req.prevTerm && req.prevIndex > SnapIndex(f.snap) {
      ConflictBounds(f.log, f.snap, req.prevIndex, t.value);
    }
  }

  lemma LastAtLeast(log: Log, snap: Option<Snapshot>)
    requires Contiguous(log, snap)
    ensures SnapIndex(snap) <= LastIndex(log, snap)
  {}

  /** Each missing-previous or term-mismatch reply strictly lowers next_index, and repair goes on. */
  lemma RefusalLowers(lc: Config, fc: Config, l: Node, f: Node, peer: NodeId, beat: bool)
    requires Repairing(l, f, peer) && Refused(fc, f, Asked(lc, l, peer, beat))
    ensures var (l', f') := AfterRefusal(lc, fc, l, f, peer, beat);
            Repairing(l', f', peer) && l'.next[peer] < l.next[peer]
  {
    hide AfterRefusal, Refused, FallBack, Asked;
    RefusalMeans(lc, fc, l, f, peer, beat);
  }

  /** How many refusals the exchange takes before the follower accepts. */
  ghost function Refusals(lc: Config, fc: Config, l: Node, f: Node, peer: NodeId, beat: bool): nat
    requires Repairing(l, f, peer)
    decreases l.next[peer]
  {
    if Refused(fc, f, Asked(lc, l, peer, beat)) then
      var (l', f') := AfterRefusal(lc, fc, l, f, peer, beat);
      RefusalLowers(lc, fc, l, f, peer, beat);
      1 + Refusals(lc, fc, l', f', peer, beat)
    else 0
  }

  /** The runs of equal terms among the first k entries. */
  function Runs(log: Log, k: nat): nat
    requires k <= |log|
  {
    if k == 0 then 0
    else if k > 1 && log[k - 1].term == log[k - 2].term then Runs(log, k - 1)
    else Runs(log, k - 1) + 1
  }

  lemma {:induction false} RunsMonotone(log: Log, j: nat, k: nat)
    requires j <= k <= |log|
    ensures Runs(log, j) <= Runs(log, k)
    decreases k
  {
    if j < k { RunsMonotone(log, j, k - 1); }
  }

  /** Walking back to the conflict index leaves out exactly one run. */
  lemma {:induction false} ConflictDropsRun(log: Log, snap: Option<Snapshot>, i: nat, t: nat)
    requires Contiguous(log, snap) && SnapIndex(snap) < i <= SnapIndex(snap) + |log|
    requires log[i - SnapIndex(snap) - 1].term == t
    ensures var c := ConflictIndex(log, snap, i, t);
            SnapIndex(snap) < c <= i && Runs(log, c - 1 - SnapIndex(snap)) + 1 == Runs(log, i - SnapIndex(snap))
  {
    var base := SnapIndex(snap);
    if i > base + 1 {
      assert TermAt(log, snap, i - 1) == Some(log[i - base - 2].term);
      if TermAt(log, snap, i - 1) == Some(t) { ConflictDropsRun(log, snap, i - 1, t); }
    }
  }

  lemma {:induction false} RefusalsWithin(lc: Config, fc: Config, l: Node, f: Node, peer: NodeId, beat: bool)
    requires Repairing(l, f, peer) && l.next[peer] <= SnapIndex(f.snap) + |f.log| + 1
    ensures Refusals(lc, fc, l, f, peer, beat) <= Runs(f.log, l.next[peer] - 1 - SnapIndex(f.snap))
    decreases l.next[peer]
  {
    hide AfterRefusal, Refused, Asked, Runs, ConflictIndex, Refusals;
    if !Refused(fc, f, Asked(lc, l, peer, beat)) {
      RefusalsStop(lc, fc, l, f, peer, beat);
    } else {
      RefusalMeans(lc, fc, l, f, peer, beat);
      RefusalLowers(lc, fc, l, f, peer, beat);
      RefusalsOnce(lc, fc, l, f, peer, beat);
      var (l', f') := AfterRefusal(lc, fc, l, f, peer, beat);
      var prev := l.next[peer] - 1;
      assert TermAt(f.log, f.snap, prev) == Some(f.log[prev - SnapIndex(f.snap) - 1].term);
      ConflictDropsRun(f.log, f.snap, prev, f.log[prev - SnapIndex(f.snap) - 1].term);
      RefusalsWithin(lc, fc, l', f', peer, beat);
    }
  }

  /** Repair ends after at most one refusal more than the follower's retained log has runs. */
  lemma RepairConverges(lc: Config, fc: Config, l: Node, f: Node, peer: NodeId, beat: bool)
    requires Repairing(l, f, peer)
    ensures Refusals(lc, fc, l, f, peer, beat) <= 1 + Runs(f.log, |f.log|)
  {
    hide AfterRefusal, Refused, Asked, Runs, Refusals, ConflictIndex;
    var base := SnapIndex(f.snap);
    if l.next[peer] <= base + |f.log| + 1 {
      RefusalsWithin(lc, fc, l, f, peer, beat);
      RunsMonotone(f.log, l.next[peer] - 1 - base, |f.log|);
    } else if !Refused(fc, f, Asked(lc, l, peer, beat)) {
      RefusalsStop(lc, fc, l, f, peer, beat);
    } else {
      RefusalMeans(lc, fc, l, f, peer, beat);
      RefusalLowers(lc, fc, l, f, peer, beat);
      var (l', f') := AfterRefusal(lc, fc, l, f, peer, beat);
      RefusalsWithin(lc, fc, l', f', peer, beat);
      RunsMonotone(f.log, l'.next[peer] - 1 - base, |f.log|);
      RefusalsOnce(lc, fc, l, f, peer, beat);
    }
  }

  /** Leader and follower when the refusals are over. */
  ghost function Settled(lc: Config, fc: Config, l: Node, f: Node, peer: NodeId, beat: bool): (Node, Node)
    requires Repairing(l, f, peer)
    decreases l.next[peer]
  {
    if Refused(fc, f, Asked(lc, l, peer, beat)) then
      var (l', f') := AfterRefusal(lc, fc, l, f, peer, beat);
      RefusalLowers(lc, fc, l, f, peer, beat);
      Settled(lc, fc, l', f', peer, beat)
    else (l, f)
  }

  /** Then the follower accepts or throws, or the leader has pruned what the follower lacks and sends
      its snapshot, and behind that snapshot the very next request is not refused. */
  lemma {:induction false} RepairEnds(lc: Config, fc: Config, l: Node, f: Node, peer: NodeId, beat: bool)
    requires Repairing(l, f, peer)
    ensures var (l', f') := Settled(lc, fc, l, f, peer, beat);
            && Repairing(l', f', peer) && f'.log == f.log && f'.snap == f.snap && !Refused(fc, f', Asked(lc, l', peer, beat))
            && match Asked(lc, l', peer, beat)
               case SendAppend(req) => var r := OnAppend(fc, f', req).1; r.Threw? || r.value.success
               case SendInstall(req) =>
                 && SnapIndex(f.snap) < req.lastIndex == SnapIndex(l.snap)
                 && var (f2, r) := OnInstall(f', req);
                    && r == Answer(InstallResponse(l.hard.term, true, req.lastIndex))
                    && var l2 := OnInstallReply(l', req.term, peer, r.value).0;
                       Repairing(l2, f2, peer) && !Refused(fc, f2, Asked(lc, l2, peer, beat)) && Asked(lc, l2, peer, beat).SendAppend?
               case _ => false
    decreases l.next[peer]
  {
    hide AfterRefusal, Refused, Asked, OnAppend, OnInstall, OnInstallReply, Repairing;
    if Refused(fc, f, Asked(lc, l, peer, beat)) {
      RefusalMeans(lc, fc, l, f, peer, beat);
      RefusalLowers(lc, fc, l, f, peer, beat);
      var (l1, f1) := AfterRefusal(lc, fc, l, f, peer, beat);
      RepairEnds(lc, fc, l1, f1, peer, beat);
    } else {
      AttemptKind(lc, l, f, peer, beat);
      if Asked(lc, l, peer, beat).SendInstall? {
        BehindSnapshot(lc, fc, l, f, peer, beat);
      } else {
        NotRefused(fc, f, Asked(lc, l, peer, beat).append);
      }
    }
  }

  lemma NotRefused(fc: Config, f: Node, req: AppendRequest)
    requires !Refused(fc, f, SendAppend(req))
    ensures var r := OnAppend(fc, f, req).1; r.Threw? || r.value.success
  {
    hide OnAppend;
  }

  /** A leader in repair always has something to send. */
  lemma AttemptKind(lc: Config, l: Node, f: Node, peer: NodeId, beat: bool)
    requires Repairing(l, f, peer)
    ensures Asked(lc, l, peer, beat).SendAppend? || Asked(lc, l, peer, beat).SendInstall?
    ensures Asked(lc, l, peer, beat).SendInstall? ==>
              l.snap.Some? && SnapIndex(f.snap) < l.next[peer] <= SnapIndex(l.snap)
              && Asked(lc, l, peer, beat).install == InstallRequest(l.hard.term, lc.id, l.snap.value.index, l.snap.value.term, l.snap.value.image)
  {
    hide EntriesFrom;
    if SnapIndex(l.snap) < l.next[peer] { KnownTerm(l.log, l.snap, l.next[peer] - 1); }
  }

  lemma BehindSnapshot(lc: Config, fc: Config, l: Node, f: Node, peer: NodeId, beat: bool)
    requires Repairing(l, f, peer) && Asked(lc, l, peer, beat).SendInstall?
    ensures var req := Asked(lc, l, peer, beat).install;
            var (f2, r) := OnInstall(f, req);
            && SnapIndex(f.snap) < req.lastIndex == SnapIndex(l.snap)
            && r == Answer(InstallResponse(l.hard.term, true, req.lastIndex))
            && var l2 := OnInstallReply(l, req.term, peer, r.value).0;
               Repairing(l2, f2, peer) && Asked(lc, l2, peer, beat).SendAppend? && !Refused(fc, f2, Asked(lc, l2, peer, beat))
  {
    hide EntriesFrom, TakeEntries, ConflictIndex, Asked, OnInstall, Refused, OnAppend;
    AttemptKind(lc, l, f, peer, beat);
    var req := Asked(lc, l, peer, beat).install;
    InstalledNode(f, req);
    var f2, i := OnInstall(f, req).0, req.lastIndex;
    var l2 := l.(matched := l.matched[peer := i], next := l.next[peer := i + 1]);
    AttemptKind(lc, l2, f2, peer, beat);
    SnapshotIsPrevious(lc, fc, l2, f2, peer, beat);
  }

  lemma InstalledNode(f: Node, req: InstallRequest)
    requires Contiguous(f.log, f.snap) && SnapIndex(f.snap) < req.lastIndex && f.hard.term <= req.term
    ensures var (a, r) := OnInstall(f, req);
            && a.snap == Some(Snapshot(req.lastIndex, req.lastTerm, req.image)) && Contiguous(a.log, a.snap)
            && a.hard.term == req.term && r == Answer(InstallResponse(req.term, true, req.lastIndex))
  {}

  lemma SnapshotIsPrevious(lc: Config, fc: Config, l: Node, f: Node, peer: NodeId, beat: bool)
    requires Repairing(l, f, peer) && l.next[peer] == SnapIndex(f.snap) + 1 && Asked(lc, l, peer, beat).SendAppend?
    ensures !Refused(fc, f, Asked(lc, l, peer, beat))
  {
    hide AfterRefusal, Refused, Asked, FallBack;
    if Refused(fc, f, Asked(lc, l, peer, beat)) {
      RefusalMeans(lc, fc, l, f, peer, beat);
      assert false;
    }
  }

  lemma RefusalsStop(lc: Config, fc: Config, l: Node, f: Node, peer: NodeId, beat: bool)
    requires Repairing(l, f, peer) && !Refused(fc, f, Asked(lc, l, peer, beat))
    ensures Refusals(lc, fc, l, f, peer, beat) == 0
  {
    hide Refused, Asked, Repairing;
  }

  lemma RefusalsOnce(lc: Config, fc: Config, l: Node, f: Node, peer: NodeId, beat: bool)
    requires Repairing(l, f, peer) && Refused(fc, f, Asked(lc, l, peer, beat))
    requires var (l', f') := AfterRefusal(lc, fc, l, f, peer, beat); Repairing(l', f', peer)
    ensures var (l', f') := AfterRefusal(lc, fc, l, f, peer, beat);
            Refusals(lc, fc, l, f, peer, beat) == 1 + Refusals(lc, fc, l', f', peer, beat)
  {
    hide AfterRefusal, Refused, Asked, Repairing;
  }

  /** The reply left out of the claim: below the follower's snapshot a refusal does not move next_index. */
  lemma StuckBelowSnapshot(lc: Config, fc: Config, l: Node, f: Node, peer: NodeId, beat: bool)
    requires l.role == Leader && f.hard.term <= l.hard.term && peer in l.next && Asked(lc, l, peer, beat).SendAppend?
    requires 0 < l.next[peer] <= SnapIndex(f.snap)
    ensures Refused(fc, f, Asked(lc, l, peer, beat))
    ensures AfterRefusal(lc, fc, l, f, peer, beat).0.next == l.next
  {
    hide TakeEntries, EntriesFrom, TermAt;
    assert l.next[peer := l.next[peer]] == l.next;
  }

  /** When the follower accepts, the logs agree up to the index it reports. */
  lemma AcceptedAgrees(lc: Config, fc: Config, l: Node, f: Node, peer: NodeId, beat: bool, full: Log, leads: Log) returns (after: Log)
    requires Repairing(l, f, peer) && Holds(l.log, l.snap, leads) && Holds(f.log, f.snap, full)
    requires Asked(lc, l, peer, beat).SendAppend? && Numbered(leads) && Numbered(full) && Matching(full, leads)
    requires var r := OnAppend(fc, f, Asked(lc, l, peer, beat).append).1; r.Answer? && r.value.success
    ensures var (f', r) := OnAppend(fc, f, Asked(lc, l, peer, beat).append);
            && Holds(f'.log, f'.snap, after) && r.value.matchIndex <= |after| && r.value.matchIndex <= |leads|
            && after[..r.value.matchIndex] == leads[..r.value.matchIndex]
            && r.value.matchIndex == l.next[peer] - 1 + (if beat then 0 else Min(lc.batch, |leads| - (l.next[peer] - 1)))
  {
    hide TakeEntries, Prepare, Holds, Numbered, TermAt, Asked, Carries, Matching, ConflictIndex, Repairing;
    RequestCarries(lc, l, f, peer, beat, leads);
    var req := Asked(lc, l, peer, beat).append;
    var a, prev := Recognise(f, req.term, req.leader), req.prevIndex;
    assert TermAt(f.log, f.snap, prev) == Some(req.prevTerm) && SnapIndex(f.snap) <= prev;
    ViewTerm(f.log, f.snap, full, prev);
    SamePrevious(req, full, leads);
    after := TakenAgrees(fc, a, req, full, leads);
  }

  lemma RequestCarries(lc: Config, l: Node, f: Node, peer: NodeId, beat: bool, leads: Log)
    requires Repairing(l, f, peer) && Holds(l.log, l.snap, leads) && Numbered(leads) && Asked(lc, l, peer, beat).SendAppend?
    ensures peer in l.next && 0 < l.next[peer] <= |leads| + 1
    ensures var r := Asked(lc, l, peer, beat).append;
            && r.term == l.hard.term && f.hard.term <= r.term && Carries(r, leads) && r.prevIndex == l.next[peer] - 1
            && |r.entries| == if beat then 0 else Min(lc.batch, |leads| - (l.next[peer] - 1))
  {
    hide Prepare, Holds, Numbered, TermAt, EntriesFrom, Asked;
    Request(lc, l, f, peer, beat);
    var prev := l.next[peer] - 1;
    ViewLast(l.log, l.snap, leads);
    ViewTerm(l.log, l.snap, leads, prev);
    ViewEntries(l.log, l.snap, leads, prev + 1, lc.batch);
  }

  lemma SamePrevious(req: AppendRequest, full: Log, leads: Log)
    requires Carries(req, leads) && Matching(full, leads) && req.prevIndex <= |full|
    requires req.prevIndex > 0 ==> full[req.prevIndex - 1].term == req.prevTerm
    ensures full[..req.prevIndex] == leads[..req.prevIndex] && req.prevIndex + |req.entries| <= |leads|
  {
    if req.prevIndex > 0 { assert MatchingAt(full, leads, req.prevIndex - 1); }
  }

  lemma TakenAgrees(cfg: Config, n: Node, req: AppendRequest, full: Log, leads: Log) returns (after: Log)
    requires Holds(n.log, n.snap, full) && Numbered(leads) && Numbered(full) && Matching(full, leads) && Carries(req, leads)
    requires SnapIndex(n.snap) <= req.prevIndex <= |full| && full[..req.prevIndex] == leads[..req.prevIndex]
    requires TakeEntries(cfg, n, req).1.Answer?
    ensures var (a, r) := TakeEntries(cfg, n, req);
            var k := req.prevIndex + |req.entries|;
            && Holds(a.log, a.snap, after) && r.value.matchIndex == k <= |after|
            && after[..k] == leads[..k]
  {
    hide CommitTo, MergeEntries, Holds, LastIndex, Adjusted, Matching, Numbered;
    var k := req.prevIndex + |req.entries|;
    MergeTakesOver(n.log, n.snap, full, req, leads);
    after := Adjusted(full, leads, k);
    AdjustedNumbered(full, leads, k);
    var m := MergeEntries(n.log, n.snap, req);
    var n1 := if m.Changed? then SaveLog(n.(log := m.log)) else n;
    ViewLast(n1.log, n1.snap, after);
    var a := FollowCommit(cfg, n1, req).0;
    if req.leaderCommit > n1.hard.commit { CommitKeepsLog(cfg, n1, Min(req.leaderCommit, LastIndex(n1.log, n1.snap)), after); }
    ViewLast(a.log, a.snap, after);
    if |req.entries| > 0 { LastCarried(req, leads); }
  }

  lemma LastCarried(req: AppendRequest, leads: Log)
    requires Carries(req, leads) && Numbered(leads) && |req.entries| > 0
    ensures req.entries[|req.entries| - 1].index == req.prevIndex + |req.entries|
  {
    assert req.entries[|req.entries| - 1] == leads[req.prevIndex + |req.entries| - 1];
  }

  lemma AdjustedNumbered(full: Log, leads: Log, k: nat)
    requires Numbered(full) && Numbered(leads) && k <= |leads|
    ensures Numbered(Adjusted(full, leads, k)) && k <= |Adjusted(full, leads, k)|
    ensures Adjusted(full, leads, k)[..k] == leads[..k]
  {}

  // ------------------------------------------------ commits and snapshots leave the log

  /** Applying ends in a snapshot attempt, or stops early; the log is not touched before that. */
  lemma ApplyEnds(cfg: Config, n: Node) returns (x: Node)
    ensures ApplyCommitted(cfg, n) == MaybeSnapshot(cfg.threshold, x) || ApplyCommitted(cfg, n) == (x, false)
    ensures x == n.(hard := n.hard.(applied := x.hard.applied), image := x.image, applies := x.applies)
    ensures ApplyCommitted(cfg, n).1 ==> ApplyCommitted(cfg, n) == MaybeSnapshot(cfg.threshold, x) && x.hard.applied >= n.hard.commit
  {
    hide MaybeSnapshot, Replay;
    x := if n.hard.applied >= n.hard.commit then n
         else if SnapIndex(n.snap) >= n.hard.commit then n.(hard := n.hard.(applied := SnapIndex(n.snap)))
         else ApplyThrough(n, Min(n.hard.commit, SnapIndex(n.snap) + |n.log|));
  }

  /** Committing moves only the boundary between snapshot and log. */
  lemma CommitKeepsLog(cfg: Config, n: Node, k: nat, full: Log)
    requires Holds(n.log, n.snap, full) && Numbered(full)
    ensures var a := CommitTo(cfg, n, k).0;
            && Holds(a.log, a.snap, full) && a.role == n.role && a.leader == n.leader && a.hard.term == n.hard.term
            && a.hard.commit == k
  {
    hide ApplyCommitted, Holds;
    var x := ApplyEnds(cfg, n.(hard := n.hard.(commit := k)));
    SnapshotKeepsLog(cfg.threshold, x, full);
  }

  lemma SnapshotKeepsLog(threshold: nat, n: Node, full: Log)
    requires Holds(n.log, n.snap, full) && Numbered(full)
    ensures var a := MaybeSnapshot(threshold, n).0;
            Holds(a.log, a.snap, full) && SnapIndex(n.snap) <= SnapIndex(a.snap)
  {
    var a := MaybeSnapshot(threshold, n).0;
    ViewTerm(n.log, n.snap, full, n.hard.applied);
    if a != n { ViewDrop(n.log, n.snap, full, a.snap); }
  }

  lemma SnapshotSettles(threshold: nat, n: Node)
    requires MaybeSnapshot(threshold, n).1
    ensures var a := MaybeSnapshot(threshold, n).0;
            MaybeSnapshot(threshold, a) == (a, true) && a.hard == n.hard && MaybeSnapshot(threshold, SaveHard(a)) == (SaveHard(a), true)
  {
    hide TermAt, DropThrough;
  }

  /** A commit that went through has nothing left to do. */
  lemma CommitSettles(cfg: Config, n: Node, k: nat)
    requires CommitTo(cfg, n, k).1
    ensures var a := CommitTo(cfg, n, k).0;
            CommitTo(cfg, a, k) == (SaveHard(a), true)
  {
    hide MaybeSnapshot, ApplyCommitted;
    var x := ApplyEnds(cfg, n.(hard := n.hard.(commit := k)));
    SnapshotSettles(cfg.threshold, x);
    var a := CommitTo(cfg, n, k).0;
    ApplyNothing(cfg, a);
  }

  lemma ApplyNothing(cfg: Config, n: Node)
    requires n.hard.applied >= n.hard.commit
    ensures ApplyCommitted(cfg, n) == MaybeSnapshot(cfg.threshold, n)
  {}

  // -------------------------------------------------------------------- re-delivery

  /** Every entry of the request is in the log, at its place. */
  ghost predicate InPlace(req: AppendRequest, full: Log) {
    && req.prevIndex + |req.entries| <= |full|
    && req.prevTerm == (if req.prevIndex == 0 then 0 else full[req.prevIndex - 1].term)
    && forall j :: 0 <= j < |req.entries| ==>
         req.entries[j].index == req.prevIndex + j + 1 && full[req.prevIndex + j].term == req.entries[j].term
  }

  lemma {:induction false} AllPresent(log: Log, snap: Option<Snapshot>, full: Log, req: AppendRequest, j: nat)
    requires Holds(log, snap, full) && Numbered(full) && SnapIndex(snap) <= req.prevIndex && InPlace(req, full) && j <= |req.entries|
    ensures FirstStop(log, snap, req, j) == |req.entries|
    decreases |req.entries| - j
  {
    if j < |req.entries| {
      ViewTerm(log, snap, full, req.prevIndex + j + 1);
      AllPresent(log, snap, full, req, j + 1);
    }
  }

  lemma {:induction false} GoodRunNumbers(entries: seq<LogEntry>, j: nat, last: nat)
    requires j <= |entries| && GoodRun(entries, j, last) == |entries|
    ensures forall k :: j <= k < |entries| ==> entries[k].index == last + 1 + k - j && entries[k].term >= 1
    decreases |entries| - j
  {
    if j < |entries| { GoodRunNumbers(entries, j + 1, last + 1); }
  }

  lemma {:induction false} SkippedNumbers(log: Log, snap: Option<Snapshot>, req: AppendRequest, j: nat)
    requires j <= |req.entries|
    ensures FirstStop(log, snap, req, j) <= |req.entries|
    ensures forall k :: j <= k < FirstStop(log, snap, req, j) ==> req.entries[k].index == req.prevIndex + k + 1
    decreases |req.entries| - j
  {
    hide TermAt;
    if FirstStop(log, snap, req, j) != j { SkippedNumbers(log, snap, req, j + 1); }
  }

  lemma MergeInPlace(log: Log, snap: Option<Snapshot>, full: Log, req: AppendRequest) returns (after: Log)
    requires Holds(log, snap, full) && Numbered(full) && SnapIndex(snap) <= req.prevIndex <= |full|
    requires req.prevTerm == if req.prevIndex == 0 then 0 else full[req.prevIndex - 1].term
    requires MergeEntries(log, snap, req).Unchanged? || MergeEntries(log, snap, req).Changed?
    ensures Holds(MergedLog(log, MergeEntries(log, snap, req)), snap, after) && Numbered(after) && InPlace(req, after)
  {
    hide TermAt, FirstStop, GoodRun, Holds, Numbered, LastIndex;
    var p := FirstStop(log, snap, req, 0);
    FirstStopBound(log, snap, req, 0);
    SkippedNumbers(log, snap, req, 0);
    PresentSoFar(log, snap, full, req, p);
    if p >= |req.entries| {
      after := full;
    } else {
      after := MergeCut(log, snap, full, req, p);
    }
  }

  lemma PresentSoFar(log: Log, snap: Option<Snapshot>, full: Log, req: AppendRequest, p: nat)
    requires Holds(log, snap, full) && Numbered(full) && SnapIndex(snap) <= req.prevIndex <= |full| && p <= |req.entries|
    requires forall k :: 0 <= k < p ==> TermAt(log, snap, req.prevIndex + k + 1) == Some(req.entries[k].term)
    ensures req.prevIndex + p <= |full|
    ensures forall k :: 0 <= k < p ==> full[req.prevIndex + k].term == req.entries[k].term
  {
    forall k | 0 <= k < p ensures req.prevIndex + k < |full| && full[req.prevIndex + k].term == req.entries[k].term {
      assert TermAt(log, snap, req.prevIndex + k + 1) == Some(req.entries[k].term);
      ViewTerm(log, snap, full, req.prevIndex + k + 1);
    }
    if p > 0 {
      assert TermAt(log, snap, req.prevIndex + (p - 1) + 1) == Some(req.entries[p - 1].term);
      ViewTerm(log, snap, full, req.prevIndex + p);
    }
  }

  lemma MergeCut(log: Log, snap: Option<Snapshot>, full: Log, req: AppendRequest, p: nat) returns (after: Log)
    requires Holds(log, snap, full) && Numbered(full) && SnapIndex(snap) <= req.prevIndex
    requires p == FirstStop(log, snap, req, 0) < |req.entries| && req.prevIndex + p <= |full|
    requires MergeEntries(log, snap, req).Changed?
    requires forall k :: 0 <= k < p ==> full[req.prevIndex + k].term == req.entries[k].term
    requires forall k :: 0 <= k < p ==> req.entries[k].index == req.prevIndex + k + 1
    requires req.prevTerm == if req.prevIndex == 0 then 0 else full[req.prevIndex - 1].term
    ensures Holds(MergeEntries(log, snap, req).log, snap, after) && Numbered(after) && InPlace(req, after)
  {
    hide FirstStop, TermAt, LastIndex, InPlace, Numbered;
    var i, base := req.prevIndex + p, SnapIndex(snap);
    after := full[..i] + req.entries[p..];
    SubSlice(full, base, 0, i - base);
    CutLast(log, snap, full, i);
    GoodRunReach(req.entries, p, i);
    GoodRunNumbers(req.entries, p, i);
    CutHolds(snap, full, i, req.entries[p..]);
    CutInPlace(full, req, p);
  }

  lemma CutInPlace(full: Log, req: AppendRequest, p: nat)
    requires Numbered(full) && p < |req.entries| && req.prevIndex + p <= |full|
    requires forall k :: 0 <= k < p ==> full[req.prevIndex + k].term == req.entries[k].term
    requires forall k :: 0 <= k < p ==> req.entries[k].index == req.prevIndex + k + 1
    requires forall k :: p <= k < |req.entries| ==> req.entries[k].index == req.prevIndex + p + 1 + k - p && req.entries[k].term >= 1
    requires req.prevTerm == if req.prevIndex == 0 then 0 else full[req.prevIndex - 1].term
    ensures var after := full[..req.prevIndex + p] + req.entries[p..];
            Numbered(after) && InPlace(req, after)
  {
    var i := req.prevIndex + p;
    var after := full[..i] + req.entries[p..];
    forall k | 0 <= k < |after| ensures after[k].index == k + 1 && after[k].term >= 1 {
      if k >= i { assert after[k] == req.entries[k - req.prevIndex]; }
    }
    forall j | 0 <= j < |req.entries| ensures after[req.prevIndex + j].term == req.entries[j].term {
      if j >= p { assert after[req.prevIndex + j] == req.entries[j]; }
    }
  }

  lemma CutLast(log: Log, snap: Option<Snapshot>, full: Log, i: nat)
    requires Holds(log, snap, full) && Numbered(full) && SnapIndex(snap) <= i <= |full|
    ensures LastIndex(log[..i - SnapIndex(snap)], snap) == i
  {}

  lemma CutHolds(snap: Option<Snapshot>, full: Log, i: nat, rest: Log)
    requires SnapIndex(snap) <= i <= |full| && Holds(full[SnapIndex(snap)..], snap, full)
    ensures Holds(full[SnapIndex(snap)..i] + rest, snap, full[..i] + rest)
  {
    assert (full[..i] + rest)[SnapIndex(snap)..] == full[SnapIndex(snap)..i] + rest;
  }

  lemma {:induction false} GoodRunReach(entries: seq<LogEntry>, j: nat, last: nat)
    requires j <= |entries|
    ensures j <= GoodRun(entries, j, last) <= |entries|
    decreases |entries| - j
  {
    if j < |entries| && entries[j].index == last + 1 && entries[j].term != 0 { GoodRunReach(entries, j + 1, last + 1); }
  }

  /** Delivering an answered request again changes nothing further: the node is the same, at most
      writing the hard state it already has once more. */
  lemma RedeliveryIsIdle(cfg: Config, n: Node, req: AppendRequest, full: Log)
    requires Holds(n.log, n.snap, full) && Numbered(full) && OnAppend(cfg, n, req).1.Answer?
    ensures var (a, r) := OnAppend(cfg, n, req);
            var (b, r') := OnAppend(cfg, a, req);
            && (b == a || b == SaveHard(a))
            && (r.value.success && SnapIndex(a.snap) <= req.prevIndex ==> r' == r)
  {
    hide TakeEntries, Holds, Numbered, TermAt, ConflictIndex;
    var n1 := Recognise(n, req.term, req.leader);
    if req.term >= n.hard.term && SnapIndex(n.snap) <= req.prevIndex && TermAt(n.log, n.snap, req.prevIndex) == Some(req.prevTerm) {
      TakenAgain(cfg, n1, req, full);
    }
  }

  lemma TakenAgain(cfg: Config, n: Node, req: AppendRequest, full: Log)
    requires Holds(n.log, n.snap, full) && Numbered(full) && TakeEntries(cfg, n, req).1.Answer?
    requires SnapIndex(n.snap) <= req.prevIndex && TermAt(n.log, n.snap, req.prevIndex) == Some(req.prevTerm)
    requires n.role == Follower && n.leader == Some(req.leader) && n.hard.term == req.term
    ensures var (a, r) := TakeEntries(cfg, n, req);
            var (b, r') := OnAppend(cfg, a, req);
            && (b == a || b == SaveHard(a))
            && (r.value.success && SnapIndex(a.snap) <= req.prevIndex ==> r' == r)
  {
    hide CommitTo, FirstStop, ConflictIndex, GoodRun, EntriesFrom;
    ViewTerm(n.log, n.snap, full, req.prevIndex);
    var m := MergeEntries(n.log, n.snap, req);
    if m.Unchanged? || m.Changed? {
      hide MergeEntries, TermAt;
      var after := MergeInPlace(n.log, n.snap, full, req);
      var n1 := if m.Changed? then SaveLog(n.(log := m.log)) else n;
      FollowedAgain(cfg, n1, req, after);
    }
  }

  lemma FollowedAgain(cfg: Config, n: Node, req: AppendRequest, full: Log)
    requires Holds(n.log, n.snap, full) && Numbered(full) && InPlace(req, full) && FollowCommit(cfg, n, req).1.Answer?
    requires n.role == Follower && n.leader == Some(req.leader) && n.hard.term == req.term
    ensures var (a, r) := FollowCommit(cfg, n, req);
            var (b, r') := OnAppend(cfg, a, req);
            && (b == a || b == SaveHard(a))
            && (SnapIndex(a.snap) <= req.prevIndex ==> r' == r)
  {
    hide CommitTo, OnAppend, Holds, Numbered, InPlace, LastIndex;
    var a := FollowCommit(cfg, n, req).0;
    ViewLast(n.log, n.snap, full);
    if req.leaderCommit > n.hard.commit {
      var k := Min(req.leaderCommit, |full|);
      CommitKeepsLog(cfg, n, k, full);
      CommitSettles(cfg, n, k);
    }
    DeliveredAgain(cfg, a, req, full);
  }

  lemma DeliveredAgain(cfg: Config, a: Node, req: AppendRequest, full: Log)
    requires Holds(a.log, a.snap, full) && Numbered(full) && InPlace(req, full)
    requires a.role == Follower && a.leader == Some(req.leader) && a.hard.term == req.term
    requires req.leaderCommit > a.hard.commit ==> a.hard.commit == |full| && CommitTo(cfg, a, |full|) == (SaveHard(a), true)
    ensures var (b, r) := OnAppend(cfg, a, req);
            && (b == a || b == SaveHard(a))
            && (SnapIndex(a.snap) <= req.prevIndex ==> r == Answer(Accept(a, req)))
  {
    hide CommitTo, TermAt, FirstStop, GoodRun, Holds, Numbered;
    ViewTerm(a.log, a.snap, full, req.prevIndex);
    ViewLast(a.log, a.snap, full);
    if SnapIndex(a.snap) <= req.prevIndex { AllPresent(a.log, a.snap, full, req, 0); }
  }

  // ------------------------------------------------------------------------ pruning

  /** A snapshot hides nothing the node is asked about. */
  lemma PruningUnobservable(n: Node, threshold: nat, i: nat, batch: nat, full: Log)
    requires Holds(n.log, n.snap, full) && Numbered(full)
    ensures var a := MaybeSnapshot(threshold, n).0;
            && LastIndex(a.log, a.snap) == LastIndex(n.log, n.snap)
            && LastTerm(a.log, a.snap) == LastTerm(n.log, n.snap)
            && (i >= SnapIndex(a.snap) ==> TermAt(a.log, a.snap, i) == TermAt(n.log, n.snap, i))
            && (i > SnapIndex(a.snap) ==> EntriesFrom(a.log, a.snap, i, batch) == EntriesFrom(n.log, n.snap, i, batch))
  {
    var a := MaybeSnapshot(threshold, n).0;
    SnapshotKeepsLog(threshold, n, full);
    ViewLast(n.log, n.snap, full);
    ViewLast(a.log, a.snap, full);
    ViewTerm(n.log, n.snap, full, i);
    ViewTerm(a.log, a.snap, full, i);
    if SnapIndex(a.snap) < i <= |full| {
      ViewEntries(n.log, n.snap, full, i, batch);
      ViewEntries(a.log, a.snap, full, i, batch);
    }
  }

  /** Recovering from snapshot and retained entries is replaying the whole committed log. */
  lemma RecoveryIsReplay(d: Disk, full: Log, writes: seq<Write>, applies: seq<LogEntry>)
    requires Holds(d.log, d.snap, full) && Numbered(full)
    requires d.snap.Some? ==> d.snap.value.image == Replay(map[], full[..d.snap.value.index])
    ensures Recover(d, writes, applies).Some? <==> d.hard.commit <= |full|
    ensures Recover(d, writes, applies).Some? ==>
              var n := Recover(d, writes, applies).value;
              && n.hard.applied == n.hard.commit == Max(d.hard.commit, SnapIndex(d.snap))
              && n.image == Replay(map[], full[..n.hard.commit])
  {
    hide Replay;
    ViewLast(d.log, d.snap, full);
    var base, k := SnapIndex(d.snap), Max(d.hard.commit, SnapIndex(d.snap));
    if k <= |full| {
      SubSlice(full, base, 0, k - base);
      ReplayPrefix(full, base, k);
      assert full[..0] == [];
      ReplayEmpty();
    }
  }

  lemma ReplayEmpty()
    ensures Replay(map[], []) == map[]
  {}

  // ---------------------------------------------------------------- install over newer

  /** The last command of the entries that touches key k. */
  function LastWriter(es: seq<LogEntry>, k: Text): Command {
    if |es| == 0 then Noop
    else
      var c := es[|es| - 1].command;
      if !c.Noop? && c.key == k then c else LastWriter(es[..|es| - 1], k)
  }

  /** Key k of the image is already what the entries leave there. */
  predicate Undisturbed(image: Image, es: seq<LogEntry>, k: Text) {
    match LastWriter(es, k)
    case Noop => true
    case Put(_, v) => k in image && image[k] == v
    case Delete(_) => k !in image
  }

  lemma {:induction false} ReplayAtKey(image: Image, es: seq<LogEntry>, k: Text)
    ensures var after := Replay(image, es);
            match LastWriter(es, k)
            case Noop => (k in after <==> k in image) && (k in image && k in after ==> after[k] == image[k])
            case Put(_, v) => k in after && after[k] == v
            case Delete(_) => k !in after
    decreases |es|
  {
    if |es| > 0 { ReplayAtKey(image, es[..|es| - 1], k); }
  }

  /** Entries leave an image as it is exactly when the last writer of every key puts what is there. */
  lemma ReplayUnmoved(image: Image, es: seq<LogEntry>)
    ensures Replay(image, es) == image <==> forall k :: Undisturbed(image, es, k)
  {
    hide Replay, LastWriter;
    var after := Replay(image, es);
    forall k ensures Undisturbed(image, es, k) <==> ((k in after <==> k in image) && (k in after && k in image ==> after[k] == image[k])) {
      ReplayAtKey(image, es, k);
    }
    if forall k :: Undisturbed(image, es, k) {
      assert forall k :: k in after <==> k in image;
      assert after == image;
    }
  }

  /** The entries a node has applied past index i, for i at or above its snapshot. */
  function AppliedPast(n: Node, i: nat): seq<LogEntry>
    requires SnapIndex(n.snap) <= i <= n.hard.applied <= SnapIndex(n.snap) + |n.log|
  {
    n.log[i - SnapIndex(n.snap)..n.hard.applied - SnapIndex(n.snap)]
  }

  /** A snapshot of the leader's log l that is installed leaves image and last_applied in step if and
      only if it is not older than what the node has applied, or every key that the node's own entries
      past it touch already has in the snapshot what the last of them wrote. The node's log need only
      agree with l as far as both what it has applied and the snapshot go. */
  lemma InstallExact(n: Node, req: InstallRequest, full: Log, l: Log)
    requires Holds(n.log, n.snap, full) && n.hard.applied <= |full|
    requires req.term >= n.hard.term && SnapIndex(n.snap) < req.lastIndex <= |l|
    requires full[..Min(n.hard.applied, req.lastIndex)] == l[..Min(n.hard.applied, req.lastIndex)]
    requires req.image == Replay(map[], l[..req.lastIndex])
    ensures var a := OnInstall(n, req).0;
            && a.hard.applied == Max(n.hard.applied, req.lastIndex)
            && (a.image == Replay(map[], if req.lastIndex < n.hard.applied then full[..a.hard.applied] else l[..a.hard.applied]) <==>
                  (req.lastIndex < n.hard.applied ==> forall k :: Undisturbed(req.image, AppliedPast(n, req.lastIndex), k)))
  {
    hide Replay, TermAt, DropThrough, LastWriter;
    if req.lastIndex < n.hard.applied {
      ReplayPrefix(full, req.lastIndex, n.hard.applied);
      SubSlice(full, SnapIndex(n.snap), req.lastIndex - SnapIndex(n.snap), n.hard.applied - SnapIndex(n.snap));
      ReplayUnmoved(req.image, AppliedPast(n, req.lastIndex));
    }
  }
}
