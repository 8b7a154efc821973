/** What the locked regions of src/raft/node.cpp do, said of the complete log a node stands for rather
    than of its snapshot and retained entries, and of majorities rather than of quorum sizes. */
module RaftRegions {
  import opened Basics
  import opened RaftTypes
  import opened RaftNode
  import opened RaftCore
  import opened RaftView
  import opened RaftPhases

  /** Snapshot and entries stand for the log full, in memory and on disk; all that is committed is
      applied, and the image is what the applied entries make. */
  ghost predicate Stands(n: Node, full: Log) {
    && Holds(n.log, n.snap, full) && Numbered(full)
    && SnapIndex(n.snap) <= n.hard.applied == n.hard.commit <= |full|
    && |n.writes| > 0 && Stored(n).log == n.log && Stored(n).snap == n.snap
    && SnapImageOk(n.snap, full)
    && n.image == Replay(map[], full[..n.hard.applied])
  }

  /** A node between two regions: the hard state is on disk too. */
  ghost predicate Rests(n: Node, full: Log) {
    Stands(n, full) && Stored(n).hard == n.hard
  }

  /** More than half of the group. */
  predicate Majority(cfg: Config, k: nat) {
    2 * k > |cfg.peers| + 1
  }

  lemma QuorumIsMajority(cfg: Config, k: nat)
    ensures QuorumSize(cfg) <= k <==> Majority(cfg, k)
  {}

  // --------------------------------------------------------------- commit and apply

  /** Index k is due for a snapshot when that many entries have been applied since the last one. */
  predicate Due(threshold: nat, snap: Option<Snapshot>, k: nat) {
    threshold > 0 && k >= SnapIndex(snap) + threshold
  }

  /** Taking a snapshot moves the boundary between snapshot and log to what is applied, if that is due,
      and changes nothing that the node stands for. */
  lemma SnapshotExact(threshold: nat, n: Node, full: Log)
    requires Stands(n, full)
    ensures var (a, ok) := MaybeSnapshot(threshold, n);
            && ok && Stands(a, full) && a == n.(log := a.log, snap := a.snap, writes := a.writes)
            && Stored(a).hard == Stored(n).hard
            && (if Due(threshold, n.snap, n.hard.applied) then SnapIndex(a.snap) == n.hard.applied else a == n)
  {
    hide Replay, Numbered, DropThrough, TermAt;
    var a := MaybeSnapshot(threshold, n).0;
    ViewTerm(n.log, n.snap, full, n.hard.applied);
    if a != n { ViewDrop(n.log, n.snap, full, a.snap); }
  }

  /** The node when everything through k has been handed over. */
  ghost function HandedThrough(n: Node, full: Log, k: nat): Node
    requires n.hard.applied <= k <= |full|
  {
    n.(image := Replay(n.image, full[n.hard.applied..k]), applies := n.applies + full[n.hard.applied..k],
       hard := n.hard.(commit := k, applied := k))
  }

  lemma HandedStands(n: Node, full: Log, k: nat)
    requires Stands(n, full) && n.hard.commit <= k <= |full|
    ensures Stands(HandedThrough(n, full, k), full)
  {
    hide Replay, Numbered;
    ReplayPrefix(full, n.hard.applied, k);
  }

  lemma AppliedIsHanded(cfg: Config, n: Node, full: Log, k: nat)
    requires Stands(n, full) && n.hard.commit <= k <= |full|
    ensures ApplyCommitted(cfg, n.(hard := n.hard.(commit := k))) == MaybeSnapshot(cfg.threshold, HandedThrough(n, full, k))
  {
    hide Replay, Numbered, MaybeSnapshot, ApplyThrough;
    var m := n.(hard := n.hard.(commit := k));
    if k > n.hard.applied {
      ApplyThroughEntries(m, full, k);
    } else {
      assert full[k..k] == [] && n.applies + [] == n.applies;
      ReplayNone(n.image);
    }
  }

  lemma ReplayNone(image: Image)
    ensures Replay(image, []) == image
  {}

  /** Setting the commit index to k hands over exactly the entries up to k, takes a snapshot when that
      is due, and ends with everything on disk. */
  lemma CommitExact(cfg: Config, n: Node, full: Log, k: nat)
    requires Stands(n, full) && n.hard.commit <= k <= |full|
    ensures var (a, ok) := CommitTo(cfg, n, k);
            && ok && Rests(a, full) && a.hard == n.hard.(commit := k, applied := k)
            && a.applies == n.applies + full[n.hard.applied..k]
            && a == n.(hard := a.hard, log := a.log, snap := a.snap, image := a.image, writes := a.writes, applies := a.applies)
            && SnapIndex(a.snap) == if Due(cfg.threshold, n.snap, k) then k else SnapIndex(n.snap)
  {
    hide Replay, Numbered, MaybeSnapshot, ApplyCommitted, Holds, SnapImageOk;
    AppliedIsHanded(cfg, n, full, k);
    HandedStands(n, full, k);
    SnapshotExact(cfg.threshold, HandedThrough(n, full, k), full);
  }

  /** A forced snapshot covers everything applied, whatever the threshold. */
  lemma ForcedSnapshot(n: Node, full: Log)
    requires Rests(n, full)
    ensures var (a, ok) := TriggerSnapshot(n);
            ok && Rests(a, full) && a == n.(log := a.log, snap := a.snap, writes := a.writes) && SnapIndex(a.snap) == n.hard.applied
  {
    hide MaybeSnapshot, Stands;
    SnapshotExact(1, n, full);
    StandsBounds(n, full);
  }

  lemma StandsBounds(n: Node, full: Log)
    requires Stands(n, full)
    ensures Holds(n.log, n.snap, full) && Numbered(full) && SnapIndex(n.snap) <= n.hard.applied == n.hard.commit <= |full|
  {}

  // ---------------------------------------------------------------------- elections

  /** A log that ends in term t at index i is at least as new as the log full. */
  predicate NewEnough(t: nat, i: nat, full: Log) {
    t > LastTermOf(full) || (t == LastTermOf(full) && i >= |full|)
  }

  /** The vote of term t can still go to the candidate. */
  predicate VoteFree(n: Node, t: nat, candidate: NodeId) {
    t > n.hard.term || n.hard.votedFor == None || n.hard.votedFor == Some(candidate)
  }

  /** A vote is granted exactly to a candidate of no earlier term whose log is at least as new, when the
      vote of that term is not another's. A grant is on disk before the answer, the answer carries the
      later term, and the same request is answered the same way again. */
  lemma VoteExact(n: Node, req: VoteRequest, full: Log)
    requires Holds(n.log, n.snap, full) && Numbered(full)
    ensures var (a, r) := OnVote(n, req);
            && (r.granted <==> req.term >= n.hard.term && VoteFree(n, req.term, req.candidate) && NewEnough(req.lastTerm, req.lastIndex, full))
            && r.term == a.hard.term == Max(n.hard.term, req.term)
            && (r.granted ==> a.hard.votedFor == Some(req.candidate) && Stored(a).hard == a.hard)
            && (!r.granted ==> a.hard.votedFor == if req.term > n.hard.term then None else n.hard.votedFor)
            && (req.term > n.hard.term ==> a.role == Follower && a.leader == None && Stored(a).hard == a.hard)
            && (req.term <= n.hard.term ==> a.role == n.role && a.leader == n.leader && (!r.granted ==> a == n))
            && a.hard.commit == n.hard.commit && a.hard.applied == n.hard.applied
            && a.log == n.log && a.snap == n.snap && a.image == n.image && a.applies == n.applies
            && OnVote(a, req).1 == r
  {
    hide Holds, Numbered, LastIndex, LastTerm;
    ViewLast(n.log, n.snap, full);
  }

  /** In every group somebody can be elected: there is a member whose request in a term past all the
      others' is granted by every one of them. */
  lemma {:induction false} SomeoneElectable(ns: seq<Node>, fulls: seq<Log>, t: nat) returns (c: nat)
    requires |ns| == |fulls| > 0
    requires forall i :: 0 <= i < |ns| ==> Holds(ns[i].log, ns[i].snap, fulls[i]) && Numbered(fulls[i]) && ns[i].hard.term < t
    ensures c < |ns|
    ensures forall i, id :: 0 <= i < |ns| ==> OnVote(ns[i], VoteRequest(t, id, |fulls[c]|, LastTermOf(fulls[c]))).1.granted
    decreases |ns|
  {
    hide Holds, Numbered, OnVote, LastTermOf;
    c := Newest(fulls);
    forall i, id | 0 <= i < |ns| ensures OnVote(ns[i], VoteRequest(t, id, |fulls[c]|, LastTermOf(fulls[c]))).1.granted {
      VoteExact(ns[i], VoteRequest(t, id, |fulls[c]|, LastTermOf(fulls[c])), fulls[i]);
    }
  }

  lemma {:induction false} Newest(fulls: seq<Log>) returns (c: nat)
    requires |fulls| > 0
    ensures c < |fulls| && forall i :: 0 <= i < |fulls| ==> NewEnough(LastTermOf(fulls[c]), |fulls[c]|, fulls[i])
    decreases |fulls|
  {
    c := 0;
    if |fulls| > 1 {
      var k := |fulls| - 1;
      c := Newest(fulls[..k]);
      if !NewEnough(LastTermOf(fulls[c]), |fulls[c]|, fulls[k]) { c := k; }
    }
  }

  /** Standing for election: the next term, with the own vote on disk, asking with the end of the log. */
  lemma StandExact(cfg: Config, n: Node, full: Log)
    requires Rests(n, full)
    ensures var (a, req) := StartElection(cfg, n);
            && (req.None? <==> n.role == Leader) && (n.role == Leader ==> a == n)
            && (n.role != Leader ==>
                  && Rests(a, full) && a.role == Candidate && a.leader == None && a.applies == n.applies
                  && a.hard == n.hard.(term := n.hard.term + 1, votedFor := Some(cfg.id))
                  && req == Some(VoteRequest(n.hard.term + 1, cfg.id, |full|, LastTermOf(full))))
  {
    hide Numbered, Holds, LastIndex, LastTerm, Replay;
    ViewLast(n.log, n.snap, full);
  }

  /** A round is won exactly by a candidate still in its term with the votes of a majority. It leads
      with one empty entry of its term at the end of its log, on disk, and that entry is committed at
      once exactly when nobody else is there to confirm it. */
  lemma FinishExact(cfg: Config, n: Node, term: nat, votes: nat, full: Log)
    requires Rests(n, full) && (n.role == Candidate ==> n.hard.term > 0)
    ensures var (a, r) := FinishElection(cfg, n, term, votes);
            var after := full + [LogEntry(|full| + 1, n.hard.term, Noop)];
            var won := n.role == Candidate && n.hard.term == term && Majority(cfg, votes);
            && r == Answer(won) && (!won ==> a == n)
            && (won ==>
                  && Rests(a, after) && a.role == Leader && a.leader == Some(cfg.id)
                  && a.hard.term == n.hard.term && a.hard.votedFor == n.hard.votedFor
                  && a.hard.commit == (if cfg.peers == [] then |after| else n.hard.commit)
                  && a.applies == n.applies + after[n.hard.applied..a.hard.commit]
                  && a.next.Keys == a.matched.Keys == (set p | p in cfg.peers)
                  && (forall p :: p in cfg.peers ==> a.next[p] == |full| + 1 && a.matched[p] == 0))
  {
    hide CommitTo, Replay, Uniform, LastIndex, Numbered, SnapImageOk;
    QuorumIsMajority(cfg, votes);
    QuorumIsMajority(cfg, 1);
    ViewLast(n.log, n.snap, full);
    if n.role == Candidate {
      var b := BecomeLeader(cfg, n);
      var a := AppendedStands(b, Noop, full);
      assert a == full + [LogEntry(|full| + 1, n.hard.term, Noop)];
      var c := SaveLog(AppendLocal(b, Noop));
      ViewLast(c.log, c.snap, a);
      if cfg.peers == [] { CommitExact(cfg, c, a, |a|); } else { assert a[n.hard.applied..n.hard.applied] == []; }
    }
  }

  /** A leader's own entry, on disk. */
  lemma AppendedStands(n: Node, command: Command, full: Log) returns (after: Log)
    requires Rests(n, full) && n.hard.term > 0
    ensures after == full + [LogEntry(|full| + 1, n.hard.term, command)]
    ensures Rests(SaveLog(AppendLocal(n, command)), after)
  {
    hide Replay, LastIndex;
    var e := LogEntry(|full| + 1, n.hard.term, command);
    after := full + [e];
    ViewLast(n.log, n.snap, full);
    AppendHolds(n, full, e);
    assert Numbered(after);
  }

  // ------------------------------------------------------------------------- submit

  /** Exactly leaders take a command. In a group of one the answer Done means that the entry is at the
      end of the log, committed, applied and on disk; otherwise Appended means that exactly this entry
      was added to the log, in memory and on disk, and nothing was committed or applied. */
  lemma SubmitExact(cfg: Config, n: Node, command: Command, full: Log)
    requires Rests(n, full) && (n.role == Leader ==> n.hard.term > 0)
    ensures var (a, r) := Submit(cfg, n, command);
            var i, t := |full| + 1, n.hard.term;
            var after := full + [LogEntry(i, t, command)];
            && (n.role != Leader ==> r == NotLeader && a == n)
            && (n.role == Leader ==>
                  && r == (if cfg.peers == [] then Done(i, t) else Appended(i, t))
                  && Rests(a, after) && a.role == Leader && a.hard.term == t
                  && a.hard.commit == a.hard.applied == (if cfg.peers == [] then i else n.hard.commit)
                  && a.applies == n.applies + after[n.hard.applied..a.hard.applied]
                  && (if cfg.peers == [] then a.image == Replay(map[], after) else Poll(a, i, t) == Pending))
  {
    hide CommitTo, Replay, LastIndex, Numbered, SnapImageOk, Holds;
    QuorumIsMajority(cfg, 1);
    if n.role == Leader {
      var after := AppendedStands(n, command, full);
      var b := SaveLog(AppendLocal(n, command));
      ViewLast(b.log, b.snap, after);
      if cfg.peers == [] {
        CommitExact(cfg, b, after, |after|);
        assert after[..|after|] == after;
      } else {
        assert after[n.hard.applied..n.hard.applied] == [];
      }
    }
  }

  /** Done is answered with the entry handed to the state machine, whatever image that has. */
  lemma DoneHandsOver(cfg: Config, n: Node, command: Command, full: Log)
    requires Holds(n.log, n.snap, full) && Numbered(full) && SnapIndex(n.snap) <= n.hard.applied == n.hard.commit <= |full|
    requires Submit(cfg, n, command).1.Done?
    ensures var (a, r) := Submit(cfg, n, command);
            r == Done(|full| + 1, n.hard.term) && LogEntry(|full| + 1, n.hard.term, command) in a.applies
  {
    hide Replay, MaybeSnapshot, LastIndex, ApplyThrough;
    var e := LogEntry(|full| + 1, n.hard.term, command);
    var b, after := SaveLog(AppendLocal(n, command)), full + [e];
    ViewLast(n.log, n.snap, full);
    AppendHolds(n, full, e);
    LastAppended(n.log, n.snap, e);
    var m := b.(hard := b.hard.(commit := |after|));
    ApplyThroughEntries(m, after, |after|);
    var x := ApplyThrough(m, |after|);
    SnapshotHandsNothing(cfg.threshold, x);
    assert after[n.hard.applied..|after|][|full| - n.hard.applied] == e;
    assert e in x.applies;
  }

  lemma LastAppended(log: Log, snap: Option<Snapshot>, e: LogEntry)
    ensures LastIndex(log + [e], snap) == e.index
  {}

  lemma SnapshotHandsNothing(threshold: nat, n: Node)
    ensures MaybeSnapshot(threshold, n).0.applies == n.applies
  {}

  // ------------------------------------------------------------------- replication

  /** What a leader that stands for full sends to a peer with this next index: its snapshot exactly when it
      has pruned what comes next, and otherwise the next entries of its log, at most a batch of them and none
      in a heartbeat, with the term before them and its commit index. Beyond the log there is nothing to send. */
  ghost function Sending(cfg: Config, n: Node, full: Log, next: nat, beat: bool): Outgoing
    requires SnapIndex(n.snap) <= |full|
  {
    var s, p := SnapIndex(n.snap), if next == 0 then 0 else next - 1;
    if 0 < s && next <= s then SendInstall(InstallRequest(n.hard.term, cfg.id, s, full[s - 1].term, Replay(map[], full[..s])))
    else if next > |full| + 1 then Again
    else SendAppend(AppendRequest(n.hard.term, cfg.id, p, LastTermOf(full[..p]),
                                  if beat || next == 0 then [] else full[p..p + Min(cfg.batch, |full| - p)], n.hard.commit))
  }

  /** A next index beyond the log is first brought back, to the snapshot if there is one. */
  lemma SendExact(cfg: Config, n: Node, peer: NodeId, beat: bool, full: Log)
    requires Rests(n, full) && n.role == Leader
    ensures SnapIndex(n.snap) <= |full|
    ensures var next := if peer in n.next then n.next[peer] else |full| + 1;
            var out := Sending(cfg, n, full, next, beat);
            var next' := if !out.Again? then next else if SnapIndex(n.snap) > 0 then SnapIndex(n.snap) else next - 1;
            Prepare(cfg, n, peer, beat) == (n.(next := n.next[peer := next']), out)
  {
    hide Replay, Stands, Prepare, LastTermOf, LastIndex, Holds, Numbered;
    StandsBounds(n, full);
    ViewLast(n.log, n.snap, full);
    var next := if peer in n.next then n.next[peer] else |full| + 1;
    if 0 < SnapIndex(n.snap) && next <= SnapIndex(n.snap) {
      SendsSnapshot(cfg, n, peer, beat, full, next);
    } else if next > |full| + 1 {
      SendsLater(cfg, n, peer, beat, full, next);
    } else {
      SendsEntries(cfg, n, peer, beat, full, next);
    }
  }

  /** The next index of a peer, which starts at the end of the log. */
  predicate NextIs(n: Node, peer: NodeId, next: nat) {
    next == if peer in n.next then n.next[peer] else LastIndex(n.log, n.snap) + 1
  }

  lemma SendsSnapshot(cfg: Config, n: Node, peer: NodeId, beat: bool, full: Log, next: nat)
    requires Stands(n, full) && n.role == Leader && NextIs(n, peer, next) && SnapIndex(n.snap) <= |full|
    requires 0 < SnapIndex(n.snap) && next <= SnapIndex(n.snap)
    ensures Prepare(cfg, n, peer, beat) == (n.(next := n.next[peer := next]), Sending(cfg, n, full, next, beat))
  {
    hide Replay, Stands, TermAt, EntriesFrom, LastIndex;
    SnapshotOf(n, full);
  }

  lemma SendsLater(cfg: Config, n: Node, peer: NodeId, beat: bool, full: Log, next: nat)
    requires Stands(n, full) && n.role == Leader && NextIs(n, peer, next) && next > |full| + 1
    ensures var back := if SnapIndex(n.snap) > 0 then SnapIndex(n.snap) else next - 1;
            Prepare(cfg, n, peer, beat) == (n.(next := n.next[peer := back]), Again)
  {
    hide Replay, Stands, TermAt, EntriesFrom, LastIndex, Holds, Numbered;
    StandsBounds(n, full);
    SnapshotOf(n, full);
    ViewTerm(n.log, n.snap, full, next - 1);
    var back := if SnapIndex(n.snap) > 0 then SnapIndex(n.snap) else next - 1;
    assert n.next[peer := next][peer := back] == n.next[peer := back];
  }

  lemma SendsEntries(cfg: Config, n: Node, peer: NodeId, beat: bool, full: Log, next: nat)
    requires Stands(n, full) && n.role == Leader && NextIs(n, peer, next) && SnapIndex(n.snap) <= |full|
    requires next <= |full| + 1 && (next > SnapIndex(n.snap) || SnapIndex(n.snap) == 0)
    ensures Prepare(cfg, n, peer, beat) == (n.(next := n.next[peer := next]), Sending(cfg, n, full, next, beat))
  {
    hide Replay, Stands, TermAt, EntriesFrom, LastIndex, Holds, Numbered, LastTermOf, Min;
    StandsBounds(n, full);
    SnapshotOf(n, full);
    var p := if next == 0 then 0 else next - 1;
    ViewTerm(n.log, n.snap, full, p);
    LastTermBefore(full, p);
    NextEntries(cfg, n, full, next);
  }

  lemma NextEntries(cfg: Config, n: Node, full: Log, next: nat)
    requires Stands(n, full) && next <= |full| + 1 && (next > SnapIndex(n.snap) || n.snap.None?)
    ensures next > 0 ==> EntriesFrom(n.log, n.snap, next, cfg.batch) == full[next - 1..next - 1 + Min(cfg.batch, |full| - (next - 1))]
    ensures next == 0 ==> EntriesFrom(n.log, n.snap, next, cfg.batch) == []
  {
    hide Replay, SnapImageOk;
    if next > 0 { ViewEntries(n.log, n.snap, full, next, cfg.batch); }
  }

  lemma LastTermBefore(full: Log, p: nat)
    requires p <= |full|
    ensures LastTermOf(full[..p]) == if p == 0 then 0 else full[p - 1].term
  {}

  lemma SnapshotOf(n: Node, full: Log)
    requires Stands(n, full)
    ensures n.snap.Some? <==> SnapIndex(n.snap) > 0
    ensures n.snap.Some? ==>
              var s := n.snap.value.index;
              s <= |full| && n.snap.value == Snapshot(s, full[s - 1].term, Replay(map[], full[..s]))
  {
    hide Replay;
  }

  /** Index c is the first, past the snapshot, of the run of equal terms that ends at i. */
  ghost predicate RunStart(s: nat, full: Log, i: nat, c: nat) {
    && s < c <= i <= |full|
    && (forall j :: c - 1 <= j < i ==> full[j].term == full[i - 1].term)
    && (c == s + 1 || full[c - 2].term != full[i - 1].term)
  }

  lemma {:induction false} ConflictIsRunStart(log: Log, snap: Option<Snapshot>, full: Log, i: nat)
    requires Holds(log, snap, full) && Numbered(full) && SnapIndex(snap) < i <= |full|
    ensures RunStart(SnapIndex(snap), full, i, ConflictIndex(log, snap, i, full[i - 1].term))
  {
    hide Holds, Numbered, TermAt;
    if i > SnapIndex(snap) + 1 {
      ViewTerm(log, snap, full, i - 1);
      if full[i - 2].term == full[i - 1].term { ConflictIsRunStart(log, snap, full, i - 1); }
    }
  }

  /** The node's log agrees with the leader's up to where the request begins. */
  ghost predicate Agrees(req: AppendRequest, full: Log, l: Log) {
    req.prevIndex <= |full| && req.prevIndex <= |l| && full[..req.prevIndex] == l[..req.prevIndex]
  }

  /** What a refusal tells the leader to try next. */
  ghost predicate Hints(s: nat, full: Log, prev: nat, stale: bool, r: AppendResponse) {
    if stale || (prev > |full| && prev >= s) then r.matchIndex == |full| && r.conflictIndex == |full| + 1
    else if prev < s then r.matchIndex == s && r.conflictIndex == s + 1
    else r.matchIndex == 0 && RunStart(s, full, prev, r.conflictIndex)
  }

  /** What the node has committed is in the leader's log, as far as that log goes. */
  ghost predicate CommitAgrees(n: Node, full: Log, l: Log) {
    n.hard.commit <= |full| && full[..Min(n.hard.commit, |l|)] == l[..Min(n.hard.commit, |l|)]
  }

  /** The previous entry has the leader's term exactly when the logs agree up to it. */
  lemma AgreesByTerm(n: Node, req: AppendRequest, full: Log, l: Log)
    requires Holds(n.log, n.snap, full) && Numbered(full) && Carries(req, l) && Matching(full, l) && SnapIndex(n.snap) <= req.prevIndex
    ensures TermAt(n.log, n.snap, req.prevIndex) == Some(req.prevTerm) <==> Agrees(req, full, l)
    ensures TermAt(n.log, n.snap, req.prevIndex).None? <==> req.prevIndex > |full|
    ensures 0 < req.prevIndex <= |full| ==> TermAt(n.log, n.snap, req.prevIndex) == Some(full[req.prevIndex - 1].term)
  {
    hide Holds, Numbered, TermAt;
    var p := req.prevIndex;
    ViewTerm(n.log, n.snap, full, p);
    if 0 < p <= |full| {
      assert MatchingAt(full, l, p - 1);
      if full[..p] == l[..p] { assert full[..p][p - 1] == l[..p][p - 1]; }
    }
  }

  /** Taking over the leader's entries loses nothing committed. */
  lemma AdjustedKeepsCommitted(n: Node, full: Log, l: Log, k: nat)
    requires k <= |l| && CommitAgrees(n, full, l)
    ensures var after := Adjusted(full, l, k); n.hard.commit <= |after| && after[..n.hard.commit] == full[..n.hard.commit]
  {
    var c := n.hard.commit;
    if k < c {
      assert full[..k] == full[..Min(c, |l|)][..k] == l[..Min(c, |l|)][..k] == l[..k];
    } else {
      assert c <= |l|;
      assert l[..k][..c] == l[..c];
    }
  }

  lemma MergedStands(n: Node, req: AppendRequest, full: Log, l: Log)
    requires Stands(n, full) && Numbered(l) && Carries(req, l) && Matching(full, l) && CommitAgrees(n, full, l)
    requires SnapIndex(n.snap) <= req.prevIndex && Agrees(req, full, l)
    ensures var m := MergeEntries(n.log, n.snap, req);
            var a := if m.Changed? then SaveLog(n.(log := m.log)) else n;
            var after := Adjusted(full, l, req.prevIndex + |req.entries|);
            && (m.Unchanged? || m.Changed?) && Stands(a, after) && Stored(a).hard == Stored(n).hard
            && req.prevIndex + |req.entries| <= |after|
  {
    hide Replay, MergeEntries, Holds, Numbered, Adjusted, Matching;
    var k := req.prevIndex + |req.entries|;
    MergeTakesOver(n.log, n.snap, full, req, l);
    AdjustedKeepsCommitted(n, full, l, k);
    AdjustedIsNumbered(full, l, k);
    var after := Adjusted(full, l, k);
    SnapImageKept(n.snap, full, after, n.hard.commit);
  }

  lemma AdjustedIsNumbered(full: Log, l: Log, k: nat)
    requires Numbered(full) && Numbered(l) && k <= |l|
    ensures Numbered(Adjusted(full, l, k)) && k <= |Adjusted(full, l, k)|
  {}

  lemma SnapImageKept(snap: Option<Snapshot>, full: Log, after: Log, c: nat)
    requires SnapImageOk(snap, full) && SnapIndex(snap) <= c <= |full| && c <= |after| && full[..c] == after[..c]
    ensures SnapImageOk(snap, after)
  {
    hide Replay;
    if snap.Some? { assert full[..c][..snap.value.index] == full[..snap.value.index] && after[..c][..snap.value.index] == after[..snap.value.index]; }
  }

  /** The answer of a node that took the entries over, and its commit index. */
  lemma FollowExact(cfg: Config, n: Node, req: AppendRequest, after: Log, l: Log)
    requires Rests(n, after) && Numbered(l) && Carries(req, l) && req.prevIndex + |req.entries| <= |after|
    ensures var (a, r) := FollowCommit(cfg, n, req);
            && r == Answer(AppendResponse(n.hard.term, true, req.prevIndex + |req.entries|, 0))
            && Rests(a, after) && a.role == n.role && a.leader == n.leader && a.hard.term == n.hard.term
            && a.hard.commit == Max(n.hard.commit, Min(req.leaderCommit, |after|))
            && a.applies == n.applies + after[n.hard.applied..a.hard.applied]
  {
    hide Replay, CommitTo, Numbered, Holds, LastIndex, SnapImageOk, Carries;
    ViewLast(n.log, n.snap, after);
    if |req.entries| > 0 { LastSent(req, l); }
    var k := Min(req.leaderCommit, |after|);
    if req.leaderCommit > n.hard.commit {
      CommitExact(cfg, n, after, k);
      var a := CommitTo(cfg, n, k).0;
      ViewLast(a.log, a.snap, after);
    } else {
      assert after[n.hard.applied..n.hard.applied] == [];
    }
  }

  lemma LastSent(req: AppendRequest, l: Log)
    requires Carries(req, l) && Numbered(l) && |req.entries| > 0
    ensures req.entries[|req.entries| - 1].index == req.prevIndex + |req.entries|
  {
    assert req.entries[|req.entries| - 1] == l[req.prevIndex + |req.entries| - 1];
  }

  lemma RecogniseRests(n: Node, term: nat, leader: NodeId, full: Log)
    requires Rests(n, full) && term >= n.hard.term
    ensures var a := Recognise(n, term, leader);
            && Rests(a, full) && a.role == Follower && a.leader == Some(leader) && a.hard.term == term
            && a.log == n.log && a.snap == n.snap && a.applies == n.applies
            && a.hard.commit == n.hard.commit && a.hard.applied == n.hard.applied
  {
    hide Replay, Numbered, Holds, SnapImageOk;
  }

  ghost predicate Takes(n: Node, req: AppendRequest, full: Log, l: Log) {
    req.term >= n.hard.term && SnapIndex(n.snap) <= req.prevIndex && Agrees(req, full, l)
  }

  /** The outcome of a request that is taken: the node stands for its own log if that has the piece
      already, and otherwise for the leader's log up to the end of the piece; it answers that end; and it
      has committed and applied what the leader has committed, as far as its log goes. */
  ghost predicate Taken(n: Node, req: AppendRequest, full: Log, l: Log, a: Node, r: AppendResponse) {
    var k := req.prevIndex + |req.entries|;
    && k <= |l| && r == AppendResponse(req.term, true, k, 0)
    && var after := Adjusted(full, l, k);
       && Rests(a, after) && a.role == Follower && a.leader == Some(req.leader) && a.hard.term == req.term
       && a.hard.commit == Max(n.hard.commit, Min(req.leaderCommit, |after|))
       && n.hard.applied <= a.hard.applied <= |after| && a.applies == n.applies + after[n.hard.applied..a.hard.applied]
  }

  /** A refusal changes neither log nor commit index and hints where to go on. */
  ghost predicate Declined(n: Node, req: AppendRequest, full: Log, a: Node, r: AppendResponse) {
    && !r.success && r.term == a.hard.term == Max(n.hard.term, req.term)
    && Rests(a, full) && a.log == n.log && a.snap == n.snap && a.hard.commit == n.hard.commit && a.applies == n.applies
    && Hints(SnapIndex(n.snap), full, req.prevIndex, req.term < n.hard.term, r)
    && (if req.term < n.hard.term then a == n else a.role == Follower && a.leader == Some(req.leader))
  }

  lemma TakenExact(cfg: Config, n: Node, req: AppendRequest, full: Log, l: Log)
    requires Rests(n, full) && Numbered(l) && Carries(req, l) && Matching(full, l) && CommitAgrees(n, full, l)
    requires n.hard.term == req.term && n.role == Follower && n.leader == Some(req.leader)
    requires SnapIndex(n.snap) <= req.prevIndex && Agrees(req, full, l)
    ensures var (a, r) := TakeEntries(cfg, n, req); r.Answer? && Taken(n, req, full, l, a, r.value)
  {
    hide Replay, Numbered, Holds, Matching, SnapImageOk, MergeEntries, FollowCommit, Agrees, Adjusted, CommitAgrees;
    MergedStands(n, req, full, l);
    var m := MergeEntries(n.log, n.snap, req);
    FollowExact(cfg, if m.Changed? then SaveLog(n.(log := m.log)) else n, req, Adjusted(full, l, req.prevIndex + |req.entries|), l);
  }

  /** A request that carries a piece of the leader's log l is taken exactly when it is of no earlier
      term and the logs agree up to where it begins, at or past the snapshot. */
  lemma AppendExact(cfg: Config, n: Node, req: AppendRequest, full: Log, l: Log)
    requires Rests(n, full) && Numbered(l) && Carries(req, l) && Matching(full, l)
    requires req.term >= n.hard.term ==> CommitAgrees(n, full, l)
    ensures var (a, r) := OnAppend(cfg, n, req);
            && r.Answer? && r.value.success == Takes(n, req, full, l)
            && if Takes(n, req, full, l) then Taken(n, req, full, l, a, r.value) else Declined(n, req, full, a, r.value)
  {
    hide Replay, TermAt, Numbered, Holds, Matching, Carries, SnapImageOk, ConflictIndex, TakeEntries, Agrees, Recognise, LastIndex, Adjusted, Rests;
    ViewRests(n, full);
    if req.term >= n.hard.term {
      RecogniseRests(n, req.term, req.leader, full);
      if SnapIndex(n.snap) <= req.prevIndex {
        AgreesByTerm(n, req, full, l);
        if Agrees(req, full, l) {
          TakenExact(cfg, Recognise(n, req.term, req.leader), req, full, l);
        } else if req.prevIndex <= |full| {
          DisagreesPastSnapshot(n, req, full, l);
          ConflictIsRunStart(n.log, n.snap, full, req.prevIndex);
        }
      }
    }
  }

  lemma ViewRests(n: Node, full: Log)
    requires Rests(n, full)
    ensures Holds(n.log, n.snap, full) && Numbered(full) && LastIndex(n.log, n.snap) == |full| && SnapIndex(n.snap) <= |full|
  {
    ViewLast(n.log, n.snap, full);
  }

  lemma DisagreesPastSnapshot(n: Node, req: AppendRequest, full: Log, l: Log)
    requires Rests(n, full) && Carries(req, l) && CommitAgrees(n, full, l) && req.prevIndex <= |full| && !Agrees(req, full, l)
    ensures SnapIndex(n.snap) < req.prevIndex
  {
    hide Replay, Numbered, SnapImageOk, Holds;
    PrefixesAgree(full, l, Min(n.hard.commit, |l|), req.prevIndex);
  }

  lemma PrefixesAgree(a: Log, b: Log, c: nat, p: nat)
    requires c <= |a| && c <= |b| && a[..c] == b[..c]
    ensures p <= c ==> a[..p] == b[..p]
  {
    if p <= c { assert a[..c][..p] == a[..p] && b[..c][..p] == b[..p]; }
  }

  /** A snapshot of the leader's log l, when it is newer than the node's and covers what the node has
      applied, becomes the node's snapshot: the node stands for its own log if that starts with what the
      snapshot covers and for exactly that otherwise, and has applied through it. An older snapshot is
      acknowledged with the node's own, and one of an earlier term is refused. */
  lemma InstallForwards(n: Node, req: InstallRequest, full: Log, l: Log)
    requires Rests(n, full) && Numbered(l) && Matching(full, l) && Depicts(req, l)
    requires req.image == Replay(map[], l[..req.lastIndex])
    requires SnapIndex(n.snap) < req.lastIndex ==> n.hard.applied <= req.lastIndex
    ensures var (a, r) := OnInstall(n, req);
            var current, newer := req.term >= n.hard.term, SnapIndex(n.snap) < req.lastIndex;
            && r == Answer(InstallResponse(Max(n.hard.term, req.term), current, if current && newer then req.lastIndex else SnapIndex(n.snap)))
            && (if current then a.role == Follower && a.leader == Some(req.leader) && a.hard.term == req.term else a == n)
            && a.applies == n.applies
            && (if current && newer
                then Rests(a, Adjusted(full, l, req.lastIndex)) && SnapIndex(a.snap) == a.hard.commit == req.lastIndex
                else Rests(a, full) && a.log == n.log && a.snap == n.snap && a.hard.commit == n.hard.commit)
  {
    hide Replay, TermAt, Numbered, Holds, Matching, Recognise, Adjusted, InstallLog;
    if req.term >= n.hard.term {
      RecogniseRests(n, req.term, req.leader, full);
      var b := Recognise(n, req.term, req.leader);
      if SnapIndex(n.snap) < req.lastIndex {
        InstallTakesOver(b, full, req, l);
        AdjustedIsNumbered(full, l, req.lastIndex);
        AdjustedStart(full, l, req.lastIndex);
      }
    }
  }

  lemma AdjustedStart(full: Log, l: Log, k: nat)
    requires k <= |l|
    ensures k <= |Adjusted(full, l, k)| && Adjusted(full, l, k)[..k] == l[..k]
  {}

  // -------------------------------------------------------------- counting a majority

  /** The greatest index peer p has confirmed to the leader n. */
  function ConfirmedBy(n: Node, p: NodeId): nat {
    if p in n.matched then n.matched[p] else 0
  }

  /** How many of the group are known to hold index x: the leader itself and those that confirmed it. */
  ghost function HoldersOf(cfg: Config, n: Node, full: Log, x: nat): nat {
    (if x <= |full| then 1 else 0) + |set i | 0 <= i < |cfg.peers| && x <= ConfirmedBy(n, cfg.peers[i])|
  }

  /** x is the greatest index that a majority is known to hold. */
  ghost predicate MajorityHolds(cfg: Config, n: Node, full: Log, x: nat) {
    && Majority(cfg, HoldersOf(cfg, n, full, x))
    && forall y: nat :: Majority(cfg, HoldersOf(cfg, n, full, y)) ==> y <= x
  }

  lemma {:induction false} CountInit(s: seq<nat>, v: nat, x: nat)
    ensures CountAtLeast(s + [v], x) == CountAtLeast(s, x) + (if v >= x then 1 else 0)
  {
    if |s| == 0 {
      assert CountAtLeast([v], x) == (if v >= x then 1 else 0) + CountAtLeast([v][1..], x);
    } else {
      assert (s + [v])[1..] == s[1..] + [v];
      CountInit(s[1..], v, x);
    }
  }

  lemma {:induction false} CountIsSize(s: seq<nat>, x: nat)
    ensures CountAtLeast(s, x) == |set i | 0 <= i < |s| && x <= s[i]|
  {
    var all := set i | 0 <= i < |s| && x <= s[i];
    if |s| == 0 {
      assert all == {};
    } else {
      var k := |s| - 1;
      var less := set i | 0 <= i < |s[..k]| && x <= s[..k][i];
      assert s[..k] + [s[k]] == s;
      CountInit(s[..k], s[k], x);
      CountIsSize(s[..k], x);
      assert all == if x <= s[k] then less + {k} else less;
    }
  }

  lemma HoldersCounted(cfg: Config, n: Node, full: Log, x: nat)
    requires LastIndex(n.log, n.snap) == |full|
    ensures CountAtLeast(Replicated(cfg, n), x) == HoldersOf(cfg, n, full, x)
  {
    var r := Replicated(cfg, n);
    var s := r[1..];
    CountIsSize(s, x);
    assert forall i :: 0 <= i < |cfg.peers| ==> s[i] == ConfirmedBy(n, cfg.peers[i]);
    assert (set i | 0 <= i < |s| && x <= s[i]) == (set i | 0 <= i < |cfg.peers| && x <= ConfirmedBy(n, cfg.peers[i]));
  }

  /** At the end of a round of its own term a leader commits the greatest index x that a majority holds,
      if that is new and the entry there is of that term, and applies the entries up to it; otherwise,
      and in any other round, nothing changes. */
  lemma AdvanceExact(cfg: Config, n: Node, term: nat, full: Log) returns (x: nat)
    requires Rests(n, full)
    ensures MajorityHolds(cfg, n, full, x)
    ensures var (a, ok) := AdvanceCommit(cfg, n, term);
            var leads := n.role == Leader && n.hard.term == term;
            && ok && Rests(a, full) && a.role == n.role && a.hard.term == n.hard.term
            && (if leads && n.hard.commit < x <= |full| && full[x - 1].term == term
                then a.hard.commit == x && a.applies == n.applies + full[n.hard.applied..x] && a.image == Replay(map[], full[..x])
                else a == n)
  {
    hide Replay, Numbered, Holds, TermAt, QuorumIndex, CommitTo, LastIndex, Stands;
    StandsBounds(n, full);
    ViewLast(n.log, n.snap, full);
    x := QuorumIndex(cfg, n);
    ReachedByMajority(cfg, n, full);
    ViewTerm(n.log, n.snap, full, x);
    if n.hard.commit < x <= |full| {
      CommitExact(cfg, n, full, x);
      var a := CommitTo(cfg, n, x).0;
      ImageOf(a, full);
    }
  }

  lemma ImageOf(n: Node, full: Log)
    requires Stands(n, full)
    ensures n.hard.applied <= |full| && n.image == Replay(map[], full[..n.hard.applied])
  {}

  lemma ReachedByMajority(cfg: Config, n: Node, full: Log)
    requires LastIndex(n.log, n.snap) == |full|
    ensures MajorityHolds(cfg, n, full, QuorumIndex(cfg, n))
  {
    hide QuorumIndex, QuorumSize, LastIndex, HoldersOf, Replicated, Majority;
    forall y: nat ensures y <= QuorumIndex(cfg, n) <==> Majority(cfg, HoldersOf(cfg, n, full, y)) {
      QuorumIndexIsGreatest(cfg, n, y);
      HoldersCounted(cfg, n, full, y);
      QuorumIsMajority(cfg, HoldersOf(cfg, n, full, y));
    }
  }

  /** Once a majority has confirmed the whole log of a leader, and its last entry is of the leader's term,
      the next round commits and applies all of it, and every submit waiting for an entry of it, told to
      wait until then, is told that it is committed. */
  lemma ConfirmedIsCommitted(cfg: Config, n: Node, full: Log)
    requires Rests(n, full) && n.role == Leader && LastTermOf(full) == n.hard.term > 0
    requires Majority(cfg, HoldersOf(cfg, n, full, |full|)) && forall p :: p in cfg.peers ==> ConfirmedBy(n, p) <= |full|
    ensures var (a, ok) := AdvanceCommit(cfg, n, n.hard.term);
            && ok && a.hard.commit == a.hard.applied == |full| && a.image == Replay(map[], full)
            && forall i: nat :: n.hard.commit < i <= |full| ==>
                 Poll(n, i, n.hard.term) == Pending && Poll(a, i, n.hard.term) == Reported
  {
    hide Replay, AdvanceCommit, Stands, Majority;
    var x := AdvanceExact(cfg, n, n.hard.term, full);
    StandsBounds(n, full);
    if x > |full| {
      assert (set i | 0 <= i < |cfg.peers| && x <= ConfirmedBy(n, cfg.peers[i])) == {};
      NoMajority(cfg);
    }
    var a := AdvanceCommit(cfg, n, n.hard.term).0;
    StandsBounds(a, full);
    ImageOf(a, full);
    assert full[..|full|] == full;
  }

  lemma NoMajority(cfg: Config)
    ensures !Majority(cfg, 0)
  {}

  // -------------------------------------------------------------- several regions together

  /** A node whose log is at least as new as those of a majority that has not passed it in term is elected:
      each of them grants its vote, each grant is counted, and the count makes it the leader of the next
      term. */
  lemma ElectedByMajority(cfg: Config, n: Node, full: Log, q: set<NodeId>, voters: map<NodeId, Node>, logs: map<NodeId, Log>)
    requires Rests(n, full) && n.role != Leader && q <= voters.Keys && q <= logs.Keys && Majority(cfg, 1 + |q|)
    requires forall p :: p in q ==>
               && Holds(voters[p].log, voters[p].snap, logs[p]) && Numbered(logs[p])
               && voters[p].hard.term <= n.hard.term && NewEnough(LastTermOf(full), |full|, logs[p])
    ensures StartElection(cfg, n).1.Some?
    ensures var (a, req) := StartElection(cfg, n);
            && (forall p :: p in q ==>
                  var r := OnVote(voters[p], req.value).1;
                  r.granted && OnVoteReply(a, req.value.term, r) == (a, Go(true)))
            && var (b, r) := FinishElection(cfg, a, req.value.term, 1 + |q|);
               && r == Answer(true) && b.role == Leader && b.hard.term == n.hard.term + 1
               && Rests(b, full + [LogEntry(|full| + 1, n.hard.term + 1, Noop)])
  {
    hide StartElection, OnVote, FinishElection, Rests, Holds, Numbered, NewEnough, Majority;
    StandExact(cfg, n, full);
    var (a, req) := StartElection(cfg, n);
    forall p | p in q ensures var r := OnVote(voters[p], req.value).1; r.granted && OnVoteReply(a, req.value.term, r) == (a, Go(true)) {
      VoteExact(voters[p], req.value, logs[p]);
    }
    FinishExact(cfg, a, req.value.term, 1 + |q|, full);
  }

  /** One exchange of a leader with a follower that has not passed it in term and whose committed entries
      the leader has. If the logs agree up to next, the follower stands for the leader's log up to what
      was sent, or for its own longer one, and the leader records exactly that index; if not, the leader
      goes back to the start of the follower's run of terms, or to the end of the follower's log. */
  lemma ExchangeExact(lc: Config, fc: Config, l: Node, f: Node, peer: NodeId, beat: bool, leads: Log, full: Log)
    requires Rests(l, leads) && Rests(f, full) && l.role == Leader && f.hard.term <= l.hard.term
    requires Matching(full, leads) && CommitAgrees(f, full, leads)
    requires peer in l.next && Max(SnapIndex(l.snap), SnapIndex(f.snap)) < l.next[peer] <= |leads| + 1
    ensures Prepare(lc, l, peer, beat).1.SendAppend?
    ensures var (l1, out) := Prepare(lc, l, peer, beat);
            var (f', r) := OnAppend(fc, f, out.append);
            && r.Answer?
            && var (l', progress) := OnAppendReply(l1, out.append.term, peer, r.value);
               var p := l.next[peer] - 1;
               var k := if beat then p else p + Min(lc.batch, |leads| - p);
               if p <= |full| && full[..p] == leads[..p]
               then
                 && progress == Success && l' == l.(matched := l.matched[peer := k], next := l.next[peer := k + 1])
                 && Rests(f', Adjusted(full, leads, k)) && f'.hard.term == l.hard.term
                 && f'.hard.commit == Max(f.hard.commit, Min(l.hard.commit, |Adjusted(full, leads, k)|))
               else
                 && progress == Retry && l' == l.(next := l.next[peer := r.value.conflictIndex])
                 && (if p > |full| then r.value.conflictIndex == |full| + 1 else RunStart(SnapIndex(f.snap), full, p, r.value.conflictIndex))
                 && Rests(f', full) && f'.hard.term == l.hard.term && f'.log == f.log && f'.snap == f.snap
  {
    hide Prepare, OnAppend, OnAppendReply, Rests, Holds, Matching, CommitAgrees, Adjusted, RunStart, Carries;
    SentPiece(lc, l, peer, beat, leads);
    var req := Prepare(lc, l, peer, beat).1.append;
    RestsNumbered(l, leads);
    AppendExact(fc, f, req, full, leads);
    var r := OnAppend(fc, f, req).1.value;
    if r.success {
      CountsReply(l, peer, r);
    } else {
      RunStartBounds(SnapIndex(f.snap), full, req.prevIndex, r.conflictIndex);
      GoesBack(l, peer, r);
    }
  }

  /** A refusal never raises the next index of the peer nor brings it below one, goes back by one when it
      hints at nothing, and leaves the other peers alone. */
  lemma RefusalGoesBack(l: Node, peer: NodeId, r: AppendResponse)
    requires l.role == Leader && r.term <= l.hard.term && !r.success && peer in l.next && l.next[peer] > 0
    ensures var (l', progress) := OnAppendReply(l, l.hard.term, peer, r);
            && progress == Retry && l' == l.(next := l'.next) && l'.next.Keys == l.next.Keys
            && (forall p :: p in l.next && p != peer ==> l'.next[p] == l.next[p])
            && 1 <= l'.next[peer] <= l.next[peer]
            && (r.conflictIndex == 0 && l.next[peer] > 1 ==> l'.next[peer] == l.next[peer] - 1)
            && (r.conflictIndex > 0 ==> l'.next[peer] == l.next[peer] || l'.next[peer] == r.conflictIndex)
            && (0 < r.conflictIndex < l.next[peer] ==> l'.next[peer] < l.next[peer])
  {}

  /** An answer of a later term ends the lead; one for another term or to another role changes nothing. */
  lemma LateAnswers(n: Node, t: nat, peer: NodeId, v: VoteResponse, r: AppendResponse, s: InstallResponse, full: Log)
    requires Rests(n, full)
    ensures n.hard.term < v.term ==> var a := OnVoteReply(n, t, v).0; Rests(a, full) && a.role == Follower && a.hard.term == v.term && a.hard.votedFor == None
    ensures n.hard.term < r.term ==> var a := OnAppendReply(n, t, peer, r).0; Rests(a, full) && a.role == Follower && a.hard.term == r.term && a.hard.votedFor == None
    ensures n.hard.term < r.term ==> var a := OnAppendReply(n, t, peer, r).0; forall i: nat :: i > n.hard.commit ==> Poll(a, i, n.hard.term) == Lost
    ensures n.hard.term < s.term ==> var a := OnInstallReply(n, t, peer, s).0; Rests(a, full) && a.role == Follower && a.hard.term == s.term && a.hard.votedFor == None
    ensures v.term <= n.hard.term && (n.role != Candidate || n.hard.term != t) ==> OnVoteReply(n, t, v) == (n, Stop)
    ensures r.term <= n.hard.term && (n.role != Leader || n.hard.term != t) ==> OnAppendReply(n, t, peer, r) == (n, Failure)
    ensures s.term <= n.hard.term && (n.role != Leader || n.hard.term != t) ==> OnInstallReply(n, t, peer, s) == (n, Failure)
  {
    hide Holds, Numbered, Replay, SnapImageOk;
  }

  /** The exchange when the leader has pruned what the follower lacks: the follower ends with the leader's
      snapshot applied, and the leader records exactly its index. */
  lemma InstallExchange(lc: Config, l: Node, f: Node, peer: NodeId, beat: bool, leads: Log, full: Log)
    requires Rests(l, leads) && Rests(f, full) && l.role == Leader && f.hard.term <= l.hard.term && Matching(full, leads)
    requires peer in l.next && l.next[peer] <= SnapIndex(l.snap) && SnapIndex(f.snap) < SnapIndex(l.snap) && f.hard.applied <= SnapIndex(l.snap)
    ensures Prepare(lc, l, peer, beat).1.SendInstall?
    ensures var (l1, out) := Prepare(lc, l, peer, beat);
            var (f', r) := OnInstall(f, out.install);
            var s := SnapIndex(l.snap);
            && r.Answer?
            && OnInstallReply(l1, out.install.term, peer, r.value) == (l.(matched := l.matched[peer := s], next := l.next[peer := s + 1]), Success)
            && s <= |leads| && Rests(f', Adjusted(full, leads, s)) && f'.hard.commit == s && f'.hard.term == l.hard.term
            && f'.image == Replay(map[], leads[..s])
  {
    hide Prepare, OnInstall, Stands, Holds, Matching, Adjusted, Replay, Numbered;
    StandsBounds(l, leads);
    SendExact(lc, l, peer, beat, leads);
    SnapshotOf(l, leads);
    var (l1, out) := Prepare(lc, l, peer, beat);
    InstallForwards(f, out.install, full, leads);
    assert l.next[peer := l.next[peer]] == l.next;
    var f', s := OnInstall(f, out.install).0, SnapIndex(l.snap);
    ImageOf(f', Adjusted(full, leads, s));
    StandsBounds(f', Adjusted(full, leads, s));
    AdjustedStart(full, leads, s);
  }

  lemma RestsNumbered(n: Node, full: Log)
    requires Rests(n, full)
    ensures Numbered(full) && SnapIndex(n.snap) <= |full|
  {}

  lemma SentPiece(lc: Config, l: Node, peer: NodeId, beat: bool, leads: Log)
    requires Rests(l, leads) && l.role == Leader && peer in l.next && SnapIndex(l.snap) < l.next[peer] <= |leads| + 1
    ensures Prepare(lc, l, peer, beat).1.SendAppend? && Prepare(lc, l, peer, beat).0 == l
    ensures var req, p := Prepare(lc, l, peer, beat).1.append, l.next[peer] - 1;
            && Carries(req, leads) && req.term == l.hard.term && req.prevIndex == p && req.leaderCommit == l.hard.commit
            && p + |req.entries| == if beat then p else p + Min(lc.batch, |leads| - p)
  {
    hide Prepare, Rests, Replay, Carries;
    SendExact(lc, l, peer, beat, leads);
    SentCarries(lc, l, peer, beat, leads);
    assert l.next[peer := l.next[peer]] == l.next;
  }

  lemma CountsReply(l: Node, peer: NodeId, r: AppendResponse)
    requires l.role == Leader && r.term == l.hard.term && r.success
    ensures OnAppendReply(l, l.hard.term, peer, r)
            == (l.(matched := l.matched[peer := r.matchIndex], next := l.next[peer := r.matchIndex + 1]), Success)
  {}

  lemma GoesBack(l: Node, peer: NodeId, r: AppendResponse)
    requires l.role == Leader && r.term == l.hard.term && !r.success && peer in l.next && 0 < r.conflictIndex <= l.next[peer]
    ensures OnAppendReply(l, l.hard.term, peer, r) == (l.(next := l.next[peer := r.conflictIndex]), Retry)
  {}

  lemma RunStartBounds(s: nat, full: Log, i: nat, c: nat)
    ensures RunStart(s, full, i, c) ==> s < c <= i <= |full|
  {}

  lemma SentCarries(lc: Config, l: Node, peer: NodeId, beat: bool, leads: Log)
    requires Rests(l, leads) && l.role == Leader && Prepare(lc, l, peer, beat).1.SendAppend?
    ensures Carries(Prepare(lc, l, peer, beat).1.append, leads)
  {
    hide Prepare, Stands, Replay, Numbered, Holds;
    SendExact(lc, l, peer, beat, leads);
    var req := Prepare(lc, l, peer, beat).1.append;
    if req.prevIndex > 0 { assert LastTermOf(leads[..req.prevIndex]) == leads[req.prevIndex - 1].term; }
    if |req.entries| == 0 { assert leads[req.prevIndex..req.prevIndex] == []; }
  }
}
