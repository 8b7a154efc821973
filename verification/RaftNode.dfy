/** What each locked region of src/raft/node.cpp does, as functions on the value of one
    node. `applies` lists every entry handed to the state machine, and `writes` the durable
    images the node has gone through, newest last, each with how many entries had been handed
    over by then, so that crashes anywhere inside a region can be spoken about. */
module RaftNode {
  import opened Basics
  import opened RaftTypes

  datatype Config = Config(id: NodeId, peers: seq<NodeId>, batch: nat, threshold: nat)

  datatype Disk = Disk(hard: HardState, log: Log, snap: Option<Snapshot>)

  datatype Write = Write(disk: Disk, handed: nat)

  datatype Node = Node(hard: HardState, log: Log, snap: Option<Snapshot>, role: Role, leader: Option<NodeId>,
                       next: map<NodeId, nat>, matched: map<NodeId, nat>, image: Image,
                       writes: seq<Write>, applies: seq<LogEntry>)

  /** An answer, or an exception that leaves the handler. */
  datatype Reply<+T> = Answer(value: T) | Threw

  const EMPTY_DISK := Disk(HardState(0, None, 0, 0), [], None)

  // ------------------------------------------------------------- log queries

  function QuorumSize(cfg: Config): nat {
    (|cfg.peers| + 1) / 2 + 1
  }

  function SnapIndex(snap: Option<Snapshot>): nat {
    if snap.Some? then snap.value.index else 0
  }

  function LastIndex(log: Log, snap: Option<Snapshot>): nat {
    if |log| > 0 then log[|log| - 1].index else SnapIndex(snap)
  }

  function LastTerm(log: Log, snap: Option<Snapshot>): nat {
    if |log| > 0 then log[|log| - 1].term else if snap.Some? then snap.value.term else 0
  }

  function TermAt(log: Log, snap: Option<Snapshot>, i: nat): Option<nat> {
    if i == 0 then Some(0)
    else if snap.Some? && i == snap.value.index then Some(snap.value.term)
    else if i < SnapIndex(snap) + 1 || i > LastIndex(log, snap) then None
    else if i - (SnapIndex(snap) + 1) >= |log| then None
    else Some(log[i - (SnapIndex(snap) + 1)].term)
  }

  function EntriesFrom(log: Log, snap: Option<Snapshot>, i: nat, batch: nat): seq<LogEntry> {
    if i > LastIndex(log, snap) || i < SnapIndex(snap) + 1 then []
    else
      var offset := i - (SnapIndex(snap) + 1);
      if offset > |log| then [] else log[offset..offset + Min(batch, |log| - offset)]
  }

  /** Entry k of the retained log has index snapshot + k + 1. */
  predicate Contiguous(log: Log, snap: Option<Snapshot>) {
    forall k :: 0 <= k < |log| ==> log[k].index == SnapIndex(snap) + k + 1
  }

  /** The entries after index i. */
  function DropThrough(log: Log, snap: Option<Snapshot>, i: nat): Log {
    if i <= SnapIndex(snap) then log
    else if i - SnapIndex(snap) >= |log| then []
    else log[i - SnapIndex(snap)..]
  }

  // ----------------------------------------------------------- state machine

  function ApplyCommand(image: Image, command: Command): Image {
    match command
    case Noop => image
    case Put(k, v) => image[k := v]
    case Delete(k) => image - {k}
  }

  function Replay(image: Image, entries: seq<LogEntry>): Image {
    if |entries| == 0 then image
    else ApplyCommand(Replay(image, entries[..|entries| - 1]), entries[|entries| - 1].command)
  }

  // ------------------------------------------------------------------ storage

  function Stored(n: Node): Disk {
    if |n.writes| == 0 then EMPTY_DISK else n.writes[|n.writes| - 1].disk
  }

  function SaveHard(n: Node): Node {
    n.(writes := n.writes + [Write(Stored(n).(hard := n.hard), |n.applies|)])
  }

  function SaveLog(n: Node): Node {
    n.(writes := n.writes + [Write(Stored(n).(log := n.log), |n.applies|)])
  }

  function SaveSnapshot(n: Node): Node {
    n.(writes := n.writes + [Write(Stored(n).(snap := n.snap), |n.applies|)])
  }

  // ---------------------------------------------------------------- elections

  function StepDown(n: Node, term: nat, leader: Option<NodeId>): Node {
    if term < n.hard.term then n
    else
      var hard := if term > n.hard.term then n.hard.(term := term, votedFor := None) else n.hard;
      SaveHard(n.(hard := hard, role := Follower, leader := leader, next := map[], matched := map[]))
  }

  function OnVote(n: Node, req: VoteRequest): (Node, VoteResponse) {
    if req.term < n.hard.term then (n, VoteResponse(n.hard.term, false))
    else
      var a := if req.term > n.hard.term then StepDown(n, req.term, None) else n;
      var lastTerm, lastIndex := LastTerm(a.log, a.snap), LastIndex(a.log, a.snap);
      var current := req.lastTerm > lastTerm || (req.lastTerm == lastTerm && req.lastIndex >= lastIndex);
      var free := a.hard.votedFor == None || a.hard.votedFor == Some(req.candidate);
      if free && current then
        (SaveHard(a.(hard := a.hard.(votedFor := Some(req.candidate)))), VoteResponse(a.hard.term, true))
      else (a, VoteResponse(a.hard.term, false))
  }

  function StartElection(cfg: Config, n: Node): (Node, Option<VoteRequest>) {
    if n.role == Leader then (n, None)
    else
      var a := SaveHard(n.(role := Candidate, leader := None,
                           hard := n.hard.(term := n.hard.term + 1, votedFor := Some(cfg.id))));
      (a, Some(VoteRequest(a.hard.term, cfg.id, LastIndex(a.log, a.snap), LastTerm(a.log, a.snap))))
  }

  datatype Tally = Stop | Go(counted: bool)

  function OnVoteReply(n: Node, electionTerm: nat, resp: VoteResponse): (Node, Tally) {
    if resp.term > n.hard.term then (StepDown(n, resp.term, None), Stop)
    else if n.role != Candidate || n.hard.term != electionTerm then (n, Stop)
    else (n, Go(resp.granted))
  }

  /** The same value for every peer. */
  function Uniform(peers: seq<NodeId>, x: nat): (m: map<NodeId, nat>)
    ensures m.Keys == (set p | p in peers) && forall p :: p in m ==> m[p] == x
  {
    if |peers| == 0 then map[] else Uniform(peers[..|peers| - 1], x)[peers[|peers| - 1] := x]
  }

  function BecomeLeader(cfg: Config, n: Node): Node {
    var last := LastIndex(n.log, n.snap);
    n.(role := Leader, leader := Some(cfg.id),
       next := Uniform(cfg.peers, last + 1), matched := Uniform(cfg.peers, 0))
  }

  function AppendLocal(n: Node, command: Command): Node {
    n.(log := n.log + [LogEntry(LastIndex(n.log, n.snap) + 1, n.hard.term, command)])
  }

  /** The end of an election round; `votes` includes the candidate's own. */
  function FinishElection(cfg: Config, n: Node, electionTerm: nat, votes: nat): (Node, Reply<bool>) {
    if n.role == Candidate && n.hard.term == electionTerm && votes >= QuorumSize(cfg) then
      var a := SaveLog(AppendLocal(BecomeLeader(cfg, n), Noop));
      if QuorumSize(cfg) == 1 then
        var (b, ok) := CommitTo(cfg, a, LastIndex(a.log, a.snap));
        (b, if ok then Answer(true) else Threw)
      else (a, Answer(true))
    else (n, Answer(false))
  }

  // ------------------------------------------------------ commit and snapshot

  /** Hand entries through index `upto` to the state machine. */
  function ApplyThrough(n: Node, upto: nat): Node
    requires SnapIndex(n.snap) <= upto
  {
    var from := Max(n.hard.applied, SnapIndex(n.snap));
    var base := SnapIndex(n.snap);
    var es := if from < upto && upto - base <= |n.log| then n.log[from - base..upto - base] else [];
    n.(image := Replay(n.image, es), applies := n.applies + es, hard := n.hard.(applied := Max(from, upto)))
  }

  function MaybeSnapshot(threshold: nat, n: Node): (Node, bool) {
    if threshold == 0 || n.hard.applied == 0 then (n, true)
    else if SnapIndex(n.snap) <= n.hard.applied < SnapIndex(n.snap) + threshold then (n, true)
    else
      match TermAt(n.log, n.snap, n.hard.applied)
      case None => (n, false)
      case Some(term) =>
        var a := SaveSnapshot(n.(snap := Some(Snapshot(n.hard.applied, term, n.image))));
        (SaveLog(a.(log := DropThrough(n.log, n.snap, n.hard.applied))), true)
  }

  /** apply_committed_locked: the flag is false when an exception leaves it. */
  function ApplyCommitted(cfg: Config, n: Node): (Node, bool) {
    if n.hard.applied >= n.hard.commit then MaybeSnapshot(cfg.threshold, n)
    else if SnapIndex(n.snap) >= n.hard.commit then
      MaybeSnapshot(cfg.threshold, n.(hard := n.hard.(applied := SnapIndex(n.snap))))
    else if n.hard.commit <= SnapIndex(n.snap) + |n.log| then
      MaybeSnapshot(cfg.threshold, ApplyThrough(n, n.hard.commit))
    else
      (ApplyThrough(n, SnapIndex(n.snap) + |n.log|), false)
  }

  /** Set the commit index, apply, and persist the hard state unless applying threw. */
  function CommitTo(cfg: Config, n: Node, commit: nat): (Node, bool) {
    var (a, ok) := ApplyCommitted(cfg, n.(hard := n.hard.(commit := commit)));
    if ok then (SaveHard(a), true) else (a, false)
  }

  function TriggerSnapshot(n: Node): (Node, bool) {
    if n.hard.applied == 0 then (n, true) else MaybeSnapshot(1, n)
  }

  // ------------------------------------------------------------- replication

  /** The first index of the run of entries of term t that ends at i, within the retained log. */
  function ConflictIndex(log: Log, snap: Option<Snapshot>, i: nat, t: nat): nat {
    if i > SnapIndex(snap) + 1 && TermAt(log, snap, i - 1) == Some(t) then ConflictIndex(log, snap, i - 1, t) else i
  }

  /** The first incoming entry, from position j, that is misnumbered, missing here, or in conflict. */
  function FirstStop(log: Log, snap: Option<Snapshot>, req: AppendRequest, j: nat): nat
    requires j <= |req.entries|
    decreases |req.entries| - j
  {
    if j < |req.entries| && req.entries[j].index == req.prevIndex + j + 1
       && TermAt(log, snap, req.prevIndex + j + 1) == Some(req.entries[j].term)
    then FirstStop(log, snap, req, j + 1) else j
  }

  /** How many entries from position j on append_entries_locked accepts after index last. */
  function GoodRun(entries: seq<LogEntry>, j: nat, last: nat): nat
    requires j <= |entries|
    decreases |entries| - j
  {
    if j < |entries| && entries[j].index == last + 1 && entries[j].term != 0
    then GoodRun(entries, j + 1, last + 1) else j
  }

  datatype Merge = Unchanged | Rejected | Changed(log: Log) | Broken(log: Log)

  /** The conflict loop: skip entries already present, cut at the first other one, append the rest. */
  function MergeEntries(log: Log, snap: Option<Snapshot>, req: AppendRequest): Merge {
    var p := FirstStop(log, snap, req, 0);
    if p >= |req.entries| then Unchanged
    else if req.entries[p].index != req.prevIndex + p + 1 then Rejected
    else
      var keep := if req.prevIndex + p < SnapIndex(snap) then 0 else req.prevIndex + p - SnapIndex(snap);
      var base := if keep <= |log| then log[..keep] else log;
      var q := GoodRun(req.entries, p, LastIndex(base, snap));
      if p <= q < |req.entries| then Broken(base + req.entries[p..q]) else Changed(base + req.entries[p..])
  }

  function Refuse(n: Node, matchIndex: nat, conflict: nat): Reply<AppendResponse> {
    Answer(AppendResponse(n.hard.term, false, matchIndex, conflict))
  }

  function Accept(n: Node, req: AppendRequest): AppendResponse {
    var last := if |req.entries| == 0 then req.prevIndex else req.entries[|req.entries| - 1].index;
    AppendResponse(n.hard.term, true, Min(last, LastIndex(n.log, n.snap)), 0)
  }

  /** After the entries are in place: follow the leader's commit index. */
  function FollowCommit(cfg: Config, n: Node, req: AppendRequest): (Node, Reply<AppendResponse>) {
    if req.leaderCommit > n.hard.commit then
      var (a, ok) := CommitTo(cfg, n, Min(req.leaderCommit, LastIndex(n.log, n.snap)));
      (a, if ok then Answer(Accept(a, req)) else Threw)
    else (n, Answer(Accept(n, req)))
  }

  function TakeEntries(cfg: Config, n: Node, req: AppendRequest): (Node, Reply<AppendResponse>) {
    match MergeEntries(n.log, n.snap, req)
    case Unchanged => FollowCommit(cfg, n, req)
    case Rejected => (n, Refuse(n, LastIndex(n.log, n.snap), LastIndex(n.log, n.snap) + 1))
    case Changed(log) => FollowCommit(cfg, SaveLog(n.(log := log)), req)
    case Broken(log) => (n.(log := log), Threw)
  }

  /** Recognise the sender of an AppendEntries or InstallSnapshot request as leader. */
  function Recognise(n: Node, term: nat, leader: NodeId): Node {
    var a := if term > n.hard.term || n.role != Follower then StepDown(n, term, Some(leader)) else n;
    a.(leader := Some(leader))
  }

  function OnAppend(cfg: Config, n: Node, req: AppendRequest): (Node, Reply<AppendResponse>) {
    if req.term < n.hard.term then (n, Refuse(n, LastIndex(n.log, n.snap), LastIndex(n.log, n.snap) + 1))
    else
      var a := Recognise(n, req.term, req.leader);
      if req.prevIndex < SnapIndex(a.snap) then (a, Refuse(a, SnapIndex(a.snap), SnapIndex(a.snap) + 1))
      else
        match TermAt(a.log, a.snap, req.prevIndex)
        case None => (a, Refuse(a, LastIndex(a.log, a.snap), LastIndex(a.log, a.snap) + 1))
        case Some(t) =>
          if t != req.prevTerm then (a, Refuse(a, 0, ConflictIndex(a.log, a.snap, req.prevIndex, t)))
          else TakeEntries(cfg, a, req)
  }

  function InstallLog(n: Node, req: InstallRequest): Log {
    if TermAt(n.log, n.snap, req.lastIndex) == Some(req.lastTerm)
    then DropThrough(n.log, n.snap, req.lastIndex) else []
  }

  function OnInstall(n: Node, req: InstallRequest): (Node, Reply<InstallResponse>) {
    if req.term < n.hard.term then (n, Answer(InstallResponse(n.hard.term, false, SnapIndex(n.snap))))
    else
      var a := Recognise(n, req.term, req.leader);
      if a.snap.Some? && req.lastIndex <= SnapIndex(a.snap) then
        (a, Answer(InstallResponse(a.hard.term, true, SnapIndex(a.snap))))
      else
        var b := a.(log := InstallLog(a, req));
        if req.lastIndex == 0 then (b, Threw)
        else
          var d := SaveLog(SaveSnapshot(b.(snap := Some(Snapshot(req.lastIndex, req.lastTerm, req.image)))));
          var hard := d.hard.(commit := Max(d.hard.commit, req.lastIndex),
                              applied := Max(d.hard.applied, req.lastIndex));
          (SaveHard(d.(image := req.image, hard := hard)), Answer(InstallResponse(d.hard.term, true, req.lastIndex)))
  }

  datatype SubmitOutcome = NotLeader | Appended(index: nat, term: nat) | Done(index: nat, term: nat) | Failed

  function Submit(cfg: Config, n: Node, command: Command): (Node, SubmitOutcome) {
    if n.role != Leader then (n, NotLeader)
    else
      var a := SaveLog(AppendLocal(n, command));
      var index := LastIndex(a.log, a.snap);
      if QuorumSize(cfg) == 1 then
        var (b, ok) := CommitTo(cfg, a, index);
        (b, if ok then Done(index, a.hard.term) else Failed)
      else (a, Appended(index, a.hard.term))
  }

  datatype PollOutcome = Reported | Lost | Pending

  function Poll(n: Node, index: nat, term: nat): PollOutcome {
    if n.hard.commit >= index then Reported
    else if n.role != Leader || n.hard.term != term then Lost
    else Pending
  }

  datatype Outgoing = Nothing | Again | SendAppend(append: AppendRequest) | SendInstall(install: InstallRequest)

  function Prepare(cfg: Config, n: Node, peer: NodeId, heartbeat: bool): (Node, Outgoing) {
    if n.role != Leader then (n, Nothing)
    else
      var next := if peer in n.next then n.next[peer] else LastIndex(n.log, n.snap) + 1;
      var a := n.(next := n.next[peer := next]);
      if n.snap.Some? && next <= n.snap.value.index then
        (a, SendInstall(InstallRequest(n.hard.term, cfg.id, n.snap.value.index, n.snap.value.term, n.snap.value.image)))
      else
        var previous := if next == 0 then 0 else next - 1;
        match TermAt(n.log, n.snap, previous)
        case None =>
          var back := if n.snap.Some? then n.snap.value.index else Max(1, previous);
          (a.(next := a.next[peer := back]), Again)
        case Some(t) =>
          var entries := if heartbeat then [] else EntriesFrom(n.log, n.snap, next, cfg.batch);
          (a, SendAppend(AppendRequest(n.hard.term, cfg.id, previous, t, entries, n.hard.commit)))
  }

  datatype Progress = Failure | Success | Retry

  function OnAppendReply(n: Node, requestTerm: nat, peer: NodeId, resp: AppendResponse): (Node, Progress) {
    if resp.term > n.hard.term then (StepDown(n, resp.term, None), Failure)
    else if n.role != Leader || n.hard.term != requestTerm then (n, Failure)
    else if resp.success then
      (n.(matched := n.matched[peer := resp.matchIndex], next := n.next[peer := resp.matchIndex + 1]), Success)
    else
      var current := if peer in n.next then n.next[peer] else 0;
      var fallback := if resp.conflictIndex != 0 then resp.conflictIndex
                      else if current == 0 then 0 else Max(1, current - 1);
      (n.(next := n.next[peer := Min(current, fallback)]), Retry)
  }

  function OnInstallReply(n: Node, requestTerm: nat, peer: NodeId, resp: InstallResponse): (Node, Progress) {
    if resp.term > n.hard.term then (StepDown(n, resp.term, None), Failure)
    else if n.role != Leader || n.hard.term != requestTerm then (n, Failure)
    else if resp.success then
      (n.(matched := n.matched[peer := resp.installedIndex], next := n.next[peer := resp.installedIndex + 1]), Success)
    else (n, Failure)
  }

  // --------------------------------------------------------- counting a quorum

  function Insert(x: nat, s: seq<nat>): seq<nat> {
    if |s| == 0 || x <= s[0] then [x] + s else [s[0]] + Insert(x, s[1..])
  }

  function Sorted(s: seq<nat>): (r: seq<nat>)
    ensures |r| == |s|
  {
    if |s| == 0 then [] else
      var t := Sorted(s[1..]);
      InsertLength(s[0], t);
      Insert(s[0], t)
  }

  lemma InsertLength(x: nat, s: seq<nat>)
    ensures |Insert(x, s)| == |s| + 1
  {}

  function Replicated(cfg: Config, n: Node): seq<nat> {
    [LastIndex(n.log, n.snap)]
    + seq(|cfg.peers|, i requires 0 <= i < |cfg.peers| =>
        if cfg.peers[i] in n.matched then n.matched[cfg.peers[i]] else 0)
  }

  function QuorumIndex(cfg: Config, n: Node): nat {
    Sorted(Replicated(cfg, n))[|cfg.peers| + 1 - QuorumSize(cfg)]
  }

  /** replicate_all's closing region for a request of the given term. */
  function AdvanceCommit(cfg: Config, n: Node, requestTerm: nat): (Node, bool) {
    if n.role != Leader || n.hard.term != requestTerm then (n, true)
    else
      var candidate := QuorumIndex(cfg, n);
      if candidate <= n.hard.commit || TermAt(n.log, n.snap, candidate) != Some(n.hard.term) then (n, true)
      else CommitTo(cfg, n, candidate)
  }

  /** confirm_leadership's check after a round that reached a quorum. */
  predicate Confirms(n: Node, contacted: bool) {
    n.role == Leader && contacted && TermAt(n.log, n.snap, n.hard.commit) == Some(n.hard.term)
  }

  // ------------------------------------------------------------------ restart

  /** The constructor on a durable image; None when it refuses to start. */
  function Recover(d: Disk, writes: seq<Write>, applies: seq<LogEntry>): Option<Node> {
    var base := SnapIndex(d.snap);
    if !Contiguous(d.log, d.snap) then None
    else
      var commit := Max(d.hard.commit, base);
      if commit > LastIndex(d.log, d.snap) then None
      else
        var es := d.log[..Min(commit - base, |d.log|)];
        var hard := d.hard.(commit := commit, applied := commit);
        var image := Replay(if d.snap.Some? then d.snap.value.image else map[], es);
        Some(SaveHard(Node(hard, d.log, d.snap, Follower, None, map[], map[], image, writes, applies + es)))
  }
}
