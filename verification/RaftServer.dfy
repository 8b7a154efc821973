/** The node of src/raft/node.cpp as an object: each method is one locked region, updates the
    fields in place, and is proved to do what the function of RaftNode with its name says. */
module RaftServer {
  import opened Basics
  import opened RaftTypes
  import opened RaftNode

  /** Where std::upper_bound puts index i in a contiguous log. */
  lemma UpperBound(log: Log, snap: Option<Snapshot>, i: nat, k: nat)
    requires Contiguous(log, snap) && k <= |log|
    requires forall j :: 0 <= j < k ==> log[j].index <= i
    requires k < |log| ==> log[k].index > i
    ensures log[k..] == DropThrough(log, snap, i)
  {
    if k > 0 { assert log[k - 1].index == SnapIndex(snap) + k; }
    if k < |log| { assert log[k].index == SnapIndex(snap) + k + 1; }
  }

  lemma DropContiguous(log: Log, snap: Option<Snapshot>, s: Snapshot)
    requires Contiguous(log, snap) && s.index > 0 && TermAt(log, snap, s.index).Some?
    ensures Contiguous(DropThrough(log, snap, s.index), Some(s))
  {}

  lemma AppendedLast(log: Log, snap: Option<Snapshot>, e: LogEntry)
    requires Contiguous(log, snap) && e.index == LastIndex(log, snap) + 1
    ensures Contiguous(log + [e], snap) && LastIndex(log + [e], snap) == e.index
  {}

  /** Cutting before an index leaves nothing there. */
  lemma CutLeavesNone(log: Log, snap: Option<Snapshot>, i: nat)
    requires Contiguous(log, snap) && SnapIndex(snap) < i
    ensures var keep := i - SnapIndex(snap) - 1;
            TermAt(if keep <= |log| then log[..keep] else log, snap, i) == None
  {}

  lemma NothingToCut(log: Log, snap: Option<Snapshot>, i: nat)
    requires Contiguous(log, snap) && SnapIndex(snap) < i && TermAt(log, snap, i) == None
    ensures var keep := i - SnapIndex(snap) - 1;
            (if keep <= |log| then log[..keep] else log) == log
  {}

  lemma ReplaySnoc(image: Image, es: seq<LogEntry>, e: LogEntry)
    ensures Replay(image, es + [e]) == ApplyCommand(Replay(image, es), e.command)
  {
    assert (es + [e])[..|es|] == es;
  }

  /** One more entry handed to the state machine. */
  lemma ApplyOne(n: Node, i: nat)
    requires Max(n.hard.applied, SnapIndex(n.snap)) <= i < SnapIndex(n.snap) + |n.log|
    ensures var e := n.log[i - SnapIndex(n.snap)];
            && ApplyThrough(n, i + 1).applies == ApplyThrough(n, i).applies + [e]
            && ApplyThrough(n, i + 1).image == ApplyCommand(ApplyThrough(n, i).image, e.command)
  {
    hide Replay;
    var base, from := SnapIndex(n.snap), Max(n.hard.applied, SnapIndex(n.snap));
    var es, e := n.log[from - base..i - base], n.log[i - base];
    assert n.log[from - base..i + 1 - base] == es + [e];
    assert ApplyThrough(n, i).applies == n.applies + es;
    assert ApplyThrough(n, i).image == Replay(n.image, es) by { if from == i { assert es == []; ReplayNothing(n.image); } }
    ReplaySnoc(n.image, es, e);
  }

  lemma ReplayNothing(image: Image)
    ensures Replay(image, []) == image
  {}

  /** What the apply loop leaves, and whether it ran to its end. */
  ghost function Drained(n: Node): (Node, bool) {
    if n.hard.applied >= n.hard.commit then (n, true)
    else if SnapIndex(n.snap) >= n.hard.commit then (n.(hard := n.hard.(applied := SnapIndex(n.snap))), true)
    else if n.hard.commit <= SnapIndex(n.snap) + |n.log| then (ApplyThrough(n, n.hard.commit), true)
    else (ApplyThrough(n, SnapIndex(n.snap) + |n.log|), false)
  }

  /** The node when its apply loop, started at n, has reached index i. */
  ghost function Reaching(n: Node, i: nat): Node {
    var a := ApplyThrough(n, Max(i, SnapIndex(n.snap)));
    n.(hard := n.hard.(applied := i), image := a.image, applies := a.applies)
  }

  ghost predicate OnTheWay(n: Node, i: nat) {
    && n.hard.applied <= i
    && (i == n.hard.applied || (n.hard.applied < n.hard.commit && SnapIndex(n.snap) <= i <= SnapIndex(n.snap) + |n.log|
                                && i <= Max(SnapIndex(n.snap), n.hard.commit)))
  }

  lemma ReachingStart(n: Node)
    ensures Reaching(n, n.hard.applied) == n
    ensures n.hard.applied < SnapIndex(n.snap) ==>
              Reaching(n, SnapIndex(n.snap)) == n.(hard := n.hard.(applied := SnapIndex(n.snap)))
  {}

  lemma ReachingStep(n: Node, i: nat)
    requires Max(n.hard.applied, SnapIndex(n.snap)) <= i < SnapIndex(n.snap) + |n.log|
    ensures var a, e := Reaching(n, i), n.log[i - SnapIndex(n.snap)];
            Reaching(n, i + 1) == a.(hard := a.hard.(applied := i + 1), image := ApplyCommand(a.image, e.command), applies := a.applies + [e])
  {
    ApplyOne(n, i);
    hide ApplyThrough, Replay;
  }

  lemma ReachingEnd(n: Node, i: nat)
    requires OnTheWay(n, i) && (i >= n.hard.commit || i >= SnapIndex(n.snap) + |n.log|)
    ensures Drained(n) == (Reaching(n, i), i >= n.hard.commit)
  {
    hide Replay;
    ReachingStart(n);
  }

  predicate Present(log: Log, snap: Option<Snapshot>, req: AppendRequest, k: nat)
    requires k < |req.entries|
  {
    && req.entries[k].index == req.prevIndex + k + 1
    && TermAt(log, snap, req.prevIndex + k + 1) == Some(req.entries[k].term)
  }

  lemma {:induction false} FirstStopFrom(log: Log, snap: Option<Snapshot>, req: AppendRequest, j: nat)
    requires j <= |req.entries|
    requires forall k :: 0 <= k < j ==> Present(log, snap, req, k)
    ensures FirstStop(log, snap, req, 0) == FirstStop(log, snap, req, j)
  {
    hide TermAt;
    if j > 0 {
      FirstStopFrom(log, snap, req, j - 1);
      assert Present(log, snap, req, j - 1);
    }
  }

  lemma {:induction false} UniformSnoc(peers: seq<NodeId>, i: nat, x: nat)
    requires i < |peers|
    ensures Uniform(peers[..i + 1], x) == Uniform(peers[..i], x)[peers[i] := x]
  {
    assert peers[..i + 1][..i] == peers[..i];
  }

  lemma NobodyYet(peers: seq<NodeId>, x: nat)
    ensures Uniform(peers[..0], x) == map[]
  {}

  class Server {
    const cfg: Config
    var hard: HardState
    var log: Log
    var snap: Option<Snapshot>
    var role: Role
    var leader: Option<NodeId>
    var next: map<NodeId, nat>
    var matched: map<NodeId, nat>
    var image: Image
    var disk: Disk
    ghost var writes: seq<Write>
    ghost var applies: seq<LogEntry>

    ghost function State(): Node
      reads this
    {
      Node(hard, log, snap, role, leader, next, matched, image, writes, applies)
    }

    ghost predicate Valid()
      reads this
    {
      && |writes| > 0 && disk == writes[|writes| - 1].disk
      && Contiguous(log, snap)
      && (role != Follower ==> hard.term > 0)
    }

    // ---------------------------------------------------------------- restart

    /** Start from a durable image. A contiguity or commit check that fails throws, and then
        nothing has been recovered or written. */
    static method Start(cfg: Config, stored: Disk, ghost past: seq<Write>, ghost applied: seq<LogEntry>) returns (r: Option<Server>)
      requires |past| > 0 && past[|past| - 1].disk == stored
      ensures r.Some? <==> Recover(stored, past, applied).Some?
      ensures r.Some? ==> fresh(r.value) && r.value.Valid() && r.value.cfg == cfg
      ensures r.Some? ==> r.value.State() == Recover(stored, past, applied).value
    {
      var base := SnapIndex(stored.snap);
      if |stored.log| > 0 {
        if stored.log[0].index != base + 1 {
          return None;
        }
        var k := 1;
        while k < |stored.log|
          invariant 1 <= k <= |stored.log|
          invariant forall j :: 0 <= j < k ==> stored.log[j].index == base + j + 1
        {
          if stored.log[k].index != stored.log[k - 1].index + 1 {
            return None;
          }
          k := k + 1;
        }
      }
      var commit := Max(stored.hard.commit, base);
      if commit > LastIndex(stored.log, stored.snap) {
        return None;
      }
      var committed: seq<LogEntry>, k := [], 0;
      while k < |stored.log|
        invariant 0 <= k <= |stored.log|
        invariant committed == stored.log[..Min(commit - base, k)]
      {
        if stored.log[k].index <= commit {
          committed := committed + [stored.log[k]];
        }
        k := k + 1;
      }
      var image := RecoverImage(stored.snap, committed);
      var s := new Server.Recovered(cfg, stored, commit, committed, image, past, applied);
      r := Some(s);
    }

    constructor Recovered(cfg: Config, stored: Disk, commit: nat, committed: seq<LogEntry>, recovered: Image,
                          ghost past: seq<Write>, ghost applied: seq<LogEntry>)
      requires |past| > 0 && past[|past| - 1].disk == stored && Contiguous(stored.log, stored.snap)
      ensures Valid() && this.cfg == cfg
      ensures State() == SaveHard(Node(stored.hard.(commit := commit, applied := commit), stored.log, stored.snap,
                                       Follower, None, map[], map[], recovered, past, applied + committed))
    {
      this.cfg, log, snap := cfg, stored.log, stored.snap;
      hard := stored.hard.(commit := commit, applied := commit);
      role, leader, next, matched, image := Follower, None, map[], map[], recovered;
      disk := stored.(hard := stored.hard.(commit := commit, applied := commit));
      writes := past + [Write(stored.(hard := stored.hard.(commit := commit, applied := commit)), |applied + committed|)];
      applies := applied + committed;
    }

    /** The state machine's recovery: the snapshot's image, then every committed entry after it. */
    static method RecoverImage(snap: Option<Snapshot>, committed: seq<LogEntry>) returns (image: Image)
      ensures image == Replay(if snap.Some? then snap.value.image else map[], committed)
    {
      image := if snap.Some? then snap.value.image else map[];
      var k := 0;
      while k < |committed|
        invariant 0 <= k <= |committed|
        invariant image == Replay(if snap.Some? then snap.value.image else map[], committed[..k])
      {
        assert committed[..k + 1][..k] == committed[..k];
        image := ApplyCommand(image, committed[k].command);
        k := k + 1;
      }
      assert committed[..k] == committed;
    }

    // ---------------------------------------------------------------- storage

    method PersistHard()
      requires Valid()
      modifies this
      ensures Valid() && State() == SaveHard(old(State()))
    {
      disk := disk.(hard := hard);
      writes := writes + [Write(disk, |applies|)];
    }

    method PersistLog()
      requires |writes| > 0 && disk == writes[|writes| - 1].disk && Contiguous(log, snap)
      requires role != Follower ==> hard.term > 0
      modifies this
      ensures Valid() && State() == SaveLog(old(State()))
    {
      disk := disk.(log := log);
      writes := writes + [Write(disk, |applies|)];
    }

    // -------------------------------------------------------------- elections

    method BecomeFollower(term: nat, from: Option<NodeId>)
      requires Valid()
      modifies this
      ensures Valid() && State() == StepDown(old(State()), term, from)
    {
      if term < hard.term {
        return;
      }
      if term > hard.term {
        hard := hard.(term := term, votedFor := None);
      }
      role, leader, next, matched := Follower, from, map[], map[];
      PersistHard();
    }

    method HandleRequestVote(req: VoteRequest) returns (r: VoteResponse)
      requires Valid()
      modifies this
      ensures Valid() && (State(), r) == OnVote(old(State()), req)
    {
      if req.term < hard.term {
        return VoteResponse(hard.term, false);
      }
      if req.term > hard.term {
        BecomeFollower(req.term, None);
      }
      var lastTerm, lastIndex := LastTerm(log, snap), LastIndex(log, snap);
      var current := req.lastTerm > lastTerm || (req.lastTerm == lastTerm && req.lastIndex >= lastIndex);
      var free := hard.votedFor == None || hard.votedFor == Some(req.candidate);
      if free && current {
        hard := hard.(votedFor := Some(req.candidate));
        PersistHard();
      }
      r := VoteResponse(hard.term, free && current);
    }

    method BeginElection() returns (req: Option<VoteRequest>)
      requires Valid()
      modifies this
      ensures Valid() && (State(), req) == StartElection(cfg, old(State()))
    {
      if role == Leader {
        return None;
      }
      role, leader := Candidate, None;
      hard := hard.(term := hard.term + 1, votedFor := Some(cfg.id));
      PersistHard();
      req := Some(VoteRequest(hard.term, cfg.id, LastIndex(log, snap), LastTerm(log, snap)));
    }

    method TallyVote(electionTerm: nat, resp: VoteResponse) returns (t: Tally)
      requires Valid()
      modifies this
      ensures Valid() && (State(), t) == OnVoteReply(old(State()), electionTerm, resp)
    {
      if resp.term > hard.term {
        BecomeFollower(resp.term, None);
        return Stop;
      }
      if role != Candidate || hard.term != electionTerm {
        return Stop;
      }
      t := Go(resp.granted);
    }

    method PromoteToLeader()
      requires Valid() && hard.term > 0
      modifies this
      ensures Valid() && State() == BecomeLeader(cfg, old(State()))
    {
      hide Uniform, Contiguous;
      var first := LastIndex(log, snap) + 1;
      NobodyYet(cfg.peers, first);
      NobodyYet(cfg.peers, 0);
      role, leader := Leader, Some(cfg.id);
      next, matched := map[], map[];
      var i := 0;
      while i < |cfg.peers|
        modifies `next, `matched
        invariant 0 <= i <= |cfg.peers|
        invariant next == Uniform(cfg.peers[..i], first) && matched == Uniform(cfg.peers[..i], 0)
      {
        UniformSnoc(cfg.peers, i, first);
        UniformSnoc(cfg.peers, i, 0);
        next, matched := next[cfg.peers[i] := first], matched[cfg.peers[i] := 0];
        i := i + 1;
      }
      assert cfg.peers[..i] == cfg.peers;
    }

    /** False when the node may not append, which leaves the source by an exception. */
    method AppendLocalEntry(command: Command) returns (ok: bool)
      requires Valid()
      modifies this
      ensures ok <==> old(role) == Leader && old(hard.term) != 0
      ensures Valid() && State() == if ok then AppendLocal(old(State()), command) else old(State())
    {
      if role != Leader || hard.term == 0 {
        return false;
      }
      log := log + [LogEntry(LastIndex(log, snap) + 1, hard.term, command)];
      ok := true;
    }

    method EndElection(electionTerm: nat, votes: nat) returns (r: Reply<bool>)
      requires Valid()
      modifies this
      ensures Valid() && (State(), r) == FinishElection(cfg, old(State()), electionTerm, votes)
    {
      if role != Candidate || hard.term != electionTerm || votes < QuorumSize(cfg) {
        return Answer(false);
      }
      PromoteToLeader();
      var appended := AppendLocalEntry(Noop);
      PersistLog();
      if QuorumSize(cfg) == 1 {
        var ok := CommitAndApply(LastIndex(log, snap));
        if !ok {
          return Threw;
        }
      }
      r := Answer(true);
    }

    // ---------------------------------------------------- commit and snapshot

    /** Drop the entries with index at most i, found as std::upper_bound does. */
    method PruneThrough(i: nat, ghost base: Option<Snapshot>)
      requires Contiguous(log, base)
      modifies `log
      ensures log == DropThrough(old(log), base, i)
    {
      var k := 0;
      while k < |log| && log[k].index <= i
        invariant 0 <= k <= |log|
        invariant forall j :: 0 <= j < k ==> log[j].index <= i
      {
        k := k + 1;
      }
      UpperBound(log, base, i, k);
      log := log[k..];
    }

    method MaybeCreateSnapshot(threshold: nat) returns (ok: bool)
      requires Valid()
      modifies this
      ensures Valid() && (State(), ok) == MaybeSnapshot(threshold, old(State()))
    {
      if threshold == 0 || hard.applied == 0 {
        return true;
      }
      if SnapIndex(snap) <= hard.applied < SnapIndex(snap) + threshold {
        return true;
      }
      var term := TermAt(log, snap, hard.applied);
      if term == None {
        return false;
      }
      StoreCreated(Snapshot(hard.applied, term.value, image));
      ok := true;
    }

    method StoreCreated(created: Snapshot)
      requires Valid() && created.index > 0 && TermAt(log, snap, created.index).Some?
      modifies this
      ensures Valid()
      ensures var n := old(State());
              var a := SaveSnapshot(n.(snap := Some(created)));
              State() == SaveLog(a.(log := DropThrough(n.log, n.snap, created.index)))
    {
      DropContiguous(log, snap, created);
      hide TermAt, Contiguous, DropThrough;
      ghost var base := snap;
      disk := disk.(snap := Some(created));
      writes := writes + [Write(disk, |applies|)];
      snap := Some(created);
      PruneThrough(created.index, base);
      PersistLog();
    }

    method DrainCommitted() returns (ok: bool)
      requires Valid()
      modifies this
      ensures Valid() && (State(), ok) == Drained(old(State()))
    {
      hide Contiguous, Drained, Reaching;
      ghost var n := State();
      ReachingStart(n);
      while hard.applied < hard.commit
        invariant Valid() && snap == n.snap && log == n.log && hard.commit == n.hard.commit
        invariant OnTheWay(n, hard.applied) && State() == Reaching(n, hard.applied)
        decreases hard.commit - hard.applied
      {
        var index := hard.applied + 1;
        if snap.Some? && index <= snap.value.index {
          hard := hard.(applied := snap.value.index);
        } else {
          var offset := index - (SnapIndex(snap) + 1);
          if offset >= |log| {
            ReachingEnd(n, hard.applied);
            return false;
          }
          ReachingStep(n, hard.applied);
          image := ApplyCommand(image, log[offset].command);
          applies := applies + [log[offset]];
          hard := hard.(applied := index);
        }
      }
      ReachingEnd(n, hard.applied);
      ok := true;
    }

    method ApplyCommittedEntries() returns (ok: bool)
      requires Valid()
      modifies this
      ensures Valid() && (State(), ok) == ApplyCommitted(cfg, old(State()))
    {
      hide ApplyThrough, MaybeSnapshot, Contiguous;
      ok := DrainCommitted();
      if ok {
        ok := MaybeCreateSnapshot(cfg.threshold);
      }
    }

    method CommitAndApply(commit: nat) returns (ok: bool)
      requires Valid()
      modifies this
      ensures Valid() && (State(), ok) == CommitTo(cfg, old(State()), commit)
    {
      hard := hard.(commit := commit);
      ok := ApplyCommittedEntries();
      if ok {
        PersistHard();
      }
    }

    method ForceSnapshot() returns (ok: bool)
      requires Valid()
      modifies this
      ensures Valid() && (State(), ok) == TriggerSnapshot(old(State()))
    {
      if hard.applied == 0 {
        return true;
      }
      ok := MaybeCreateSnapshot(1);
    }

    // ------------------------------------------------------------ replication

    /** Cut the log before index i. */
    method TruncateFrom(i: nat)
      requires Valid()
      modifies `log
      ensures Valid()
      ensures var keep := if i <= SnapIndex(snap) + 1 then 0 else i - SnapIndex(snap) - 1;
              log == if keep <= |old(log)| then old(log)[..keep] else old(log)
    {
      if i <= SnapIndex(snap) + 1 {
        log := [];
      } else if i <= LastIndex(log, snap) {
        log := log[..i - (SnapIndex(snap) + 1)];
      }
    }

    /** Append entries from position p on, up to the first that does not follow. */
    method AppendRest(entries: seq<LogEntry>, p: nat) returns (ok: bool)
      requires Valid() && p <= |entries|
      modifies `log
      ensures Valid()
      ensures var q := GoodRun(entries, p, LastIndex(old(log), snap));
              p <= q <= |entries| && log == old(log) + entries[p..q] && ok == (q == |entries|)
    {
      hide Contiguous, LastIndex;
      ghost var last := LastIndex(log, snap);
      var k := p;
      while k < |entries|
        invariant p <= k <= |entries| && Valid()
        invariant log == old(log) + entries[p..k] && LastIndex(log, snap) == last + k - p
        invariant GoodRun(entries, p, last) == GoodRun(entries, k, last + k - p)
      {
        if entries[k].index != LastIndex(log, snap) + 1 || entries[k].term == 0 {
          return false;
        }
        AppendedLast(log, snap, entries[k]);
        assert entries[p..k + 1] == entries[p..k] + [entries[k]];
        log := log + [entries[k]];
        k := k + 1;
      }
      ok := true;
    }

    /** Walk back to the first entry of the run of term t that holds index i. */
    method FindConflict(i: nat, t: nat) returns (c: nat)
      ensures c == ConflictIndex(log, snap, i, t)
    {
      c := i;
      while c > SnapIndex(snap) + 1
        invariant c <= i
        invariant ConflictIndex(log, snap, i, t) == ConflictIndex(log, snap, c, t)
        decreases c
      {
        if TermAt(log, snap, c - 1) != Some(t) {
          return;
        }
        c := c - 1;
      }
    }

    /** One incoming entry: cut the log where it conflicts, and append from it on where it is missing. */
    method TakeEntry(req: AppendRequest, p: nat) returns (appended: bool, ok: bool)
      requires Valid() && SnapIndex(snap) <= req.prevIndex <= LastIndex(log, snap)
      requires p < |req.entries| && req.entries[p].index == req.prevIndex + p + 1
      modifies `log
      ensures Valid()
      ensures appended <==> TermAt(old(log), snap, req.entries[p].index) != Some(req.entries[p].term)
      ensures !appended ==> ok && log == old(log)
      ensures appended ==>
                var keep := req.prevIndex + p - SnapIndex(snap);
                var base := if keep <= |old(log)| then old(log)[..keep] else old(log);
                var q := GoodRun(req.entries, p, LastIndex(base, snap));
                p <= q <= |req.entries| && log == base + req.entries[p..q] && ok == (q == |req.entries|)
    {
      hide Contiguous, LastIndex, TermAt, GoodRun;
      appended, ok := false, true;
      var incoming := req.entries[p];
      var existing := TermAt(log, snap, incoming.index);
      CutLeavesNone(log, snap, incoming.index);
      if existing.None? { NothingToCut(log, snap, incoming.index); }
      if existing.Some? && existing.value != incoming.term {
        TruncateFrom(incoming.index);
      }
      if TermAt(log, snap, incoming.index) == None {
        ok := AppendRest(req.entries, p);
        appended := true;
      }
    }

    /** The loop over incoming entries. It may be refused at a misnumbered entry, leave by an
        exception, or finish with the log changed or not. */
    method MergeInPlace(req: AppendRequest) returns (refused: bool, ok: bool, changed: bool)
      requires Valid() && SnapIndex(snap) <= req.prevIndex <= LastIndex(log, snap)
      modifies `log
      ensures Valid()
      ensures match MergeEntries(old(log), snap, req)
              case Unchanged => !refused && ok && !changed && log == old(log)
              case Rejected => refused && log == old(log)
              case Changed(l) => !refused && ok && changed && log == l
              case Broken(l) => !refused && !ok && log == l
    {
      hide TermAt, GoodRun, LastIndex;
      refused, ok, changed := false, true, false;
      var p := 0;
      while p < |req.entries|
        invariant 0 <= p <= |req.entries| && log == old(log) && ok && !changed
        invariant Skipped(req, p)
      {
        FirstStopFrom(log, snap, req, p);
        if req.entries[p].index != req.prevIndex + p + 1 {
          refused := true;
          return;
        }
        changed, ok := TakeEntry(req, p);
        if changed {
          return;
        }
        p := p + 1;
      }
      FirstStopFrom(log, snap, req, p);
    }

    /** The first p incoming entries are in place already. */
    ghost predicate Skipped(req: AppendRequest, p: nat)
      requires p <= |req.entries|
      reads this
    {
      forall k :: 0 <= k < p ==> Present(log, snap, req, k)
    }

    method RecogniseLeader(term: nat, from: NodeId)
      requires Valid()
      modifies this
      ensures Valid() && State() == Recognise(old(State()), term, from)
    {
      if term > hard.term || role != Follower {
        BecomeFollower(term, Some(from));
      }
      leader := Some(from);
    }

    method HandleAppendEntries(req: AppendRequest) returns (r: Reply<AppendResponse>)
      requires Valid()
      modifies this
      ensures Valid() && (State(), r) == OnAppend(cfg, old(State()), req)
    {
      if req.term < hard.term {
        return Answer(AppendResponse(hard.term, false, LastIndex(log, snap), LastIndex(log, snap) + 1));
      }
      RecogniseLeader(req.term, req.leader);
      if req.prevIndex < SnapIndex(snap) {
        return Answer(AppendResponse(hard.term, false, SnapIndex(snap), SnapIndex(snap) + 1));
      }
      var previous := TermAt(log, snap, req.prevIndex);
      if previous == None {
        return Answer(AppendResponse(hard.term, false, LastIndex(log, snap), LastIndex(log, snap) + 1));
      }
      if previous.value != req.prevTerm {
        var conflict := FindConflict(req.prevIndex, previous.value);
        return Answer(AppendResponse(hard.term, false, 0, conflict));
      }
      r := StoreEntries(req);
    }

    method StoreEntries(req: AppendRequest) returns (r: Reply<AppendResponse>)
      requires Valid() && SnapIndex(snap) <= req.prevIndex <= LastIndex(log, snap)
      modifies this
      ensures Valid() && (State(), r) == TakeEntries(cfg, old(State()), req)
    {
      var refused, ok, changed := MergeInPlace(req);
      if refused {
        return Answer(AppendResponse(hard.term, false, LastIndex(log, snap), LastIndex(log, snap) + 1));
      }
      if !ok {
        return Threw;
      }
      if changed {
        PersistLog();
      }
      r := FollowLeaderCommit(req);
    }

    method FollowLeaderCommit(req: AppendRequest) returns (r: Reply<AppendResponse>)
      requires Valid()
      modifies this
      ensures Valid() && (State(), r) == FollowCommit(cfg, old(State()), req)
    {
      if req.leaderCommit > hard.commit {
        var done := CommitAndApply(Min(req.leaderCommit, LastIndex(log, snap)));
        if !done {
          return Threw;
        }
      }
      var last := if |req.entries| == 0 then req.prevIndex else req.entries[|req.entries| - 1].index;
      r := Answer(AppendResponse(hard.term, true, Min(last, LastIndex(log, snap)), 0));
    }

    method HandleInstallSnapshot(req: InstallRequest) returns (r: Reply<InstallResponse>)
      requires Valid()
      modifies this
      ensures Valid() && (State(), r) == OnInstall(old(State()), req)
    {
      hide TermAt, Contiguous;
      if req.term < hard.term {
        return Answer(InstallResponse(hard.term, false, SnapIndex(snap)));
      }
      RecogniseLeader(req.term, req.leader);
      if snap.Some? && req.lastIndex <= snap.value.index {
        return Answer(InstallResponse(hard.term, true, snap.value.index));
      }
      PruneForInstall(req);
      if req.lastIndex == 0 {
        return Threw;
      }
      StoreInstalled(Snapshot(req.lastIndex, req.lastTerm, req.image));
      r := Answer(InstallResponse(hard.term, true, req.lastIndex));
    }

    method PruneForInstall(req: InstallRequest)
      requires Valid() && (snap.Some? ==> req.lastIndex > snap.value.index)
      modifies `log
      ensures log == InstallLog(old(State()), req)
      ensures req.lastIndex > 0 ==> Contiguous(log, Some(Snapshot(req.lastIndex, req.lastTerm, req.image)))
      ensures req.lastIndex == 0 ==> Contiguous(log, snap)
    {
      if TermAt(log, snap, req.lastIndex) == Some(req.lastTerm) {
        if req.lastIndex > 0 { DropContiguous(log, snap, Snapshot(req.lastIndex, req.lastTerm, req.image)); }
        PruneThrough(req.lastIndex, snap);
      } else {
        log := [];
      }
    }

    method StoreInstalled(installed: Snapshot)
      requires |writes| > 0 && disk == writes[|writes| - 1].disk && Contiguous(log, Some(installed))
      requires role != Follower ==> hard.term > 0
      modifies this
      ensures Valid()
      ensures var d := SaveLog(SaveSnapshot(old(State()).(snap := Some(installed))));
              var h := d.hard.(commit := Max(d.hard.commit, installed.index), applied := Max(d.hard.applied, installed.index));
              State() == SaveHard(d.(image := installed.image, hard := h))
    {
      hide Contiguous;
      disk := disk.(snap := Some(installed));
      writes := writes + [Write(disk, |applies|)];
      snap := Some(installed);
      PersistLog();
      image := installed.image;
      hard := hard.(commit := Max(hard.commit, installed.index), applied := Max(hard.applied, installed.index));
      PersistHard();
    }

    method SubmitCommand(command: Command) returns (r: SubmitOutcome)
      requires Valid()
      modifies this
      ensures Valid() && (State(), r) == Submit(cfg, old(State()), command)
    {
      if role != Leader {
        return NotLeader;
      }
      var appended := AppendLocalEntry(command);
      var index, term := LastIndex(log, snap), hard.term;
      PersistLog();
      if QuorumSize(cfg) == 1 {
        var ok := CommitAndApply(index);
        return if ok then Done(index, term) else Failed;
      }
      r := Appended(index, term);
    }

    method PrepareRequest(peer: NodeId, heartbeat: bool) returns (out: Outgoing)
      requires Valid()
      modifies this
      ensures Valid() && (State(), out) == Prepare(cfg, old(State()), peer, heartbeat)
    {
      if role != Leader {
        return Nothing;
      }
      if peer !in next {
        next := next[peer := LastIndex(log, snap) + 1];
      }
      var following := next[peer];
      assert next == old(next)[peer := following];
      if snap.Some? && following <= snap.value.index {
        return SendInstall(InstallRequest(hard.term, cfg.id, snap.value.index, snap.value.term, snap.value.image));
      }
      var previous := if following == 0 then 0 else following - 1;
      var term := TermAt(log, snap, previous);
      if term == None {
        next := next[peer := if snap.Some? then snap.value.index else Max(1, previous)];
        return Again;
      }
      out := SendAppend(AppendRequest(hard.term, cfg.id, previous, term.value,
                                      if heartbeat then [] else EntriesFrom(log, snap, following, cfg.batch), hard.commit));
    }

    method HandleAppendReply(requestTerm: nat, peer: NodeId, resp: AppendResponse) returns (p: Progress)
      requires Valid()
      modifies this
      ensures Valid() && (State(), p) == OnAppendReply(old(State()), requestTerm, peer, resp)
    {
      if resp.term > hard.term {
        BecomeFollower(resp.term, None);
        return Failure;
      }
      if role != Leader || hard.term != requestTerm {
        return Failure;
      }
      if resp.success {
        matched, next := matched[peer := resp.matchIndex], next[peer := resp.matchIndex + 1];
        return Success;
      }
      var current := if peer in next then next[peer] else 0;
      var fallback := if resp.conflictIndex == 0 then (if current == 0 then 0 else Max(1, current - 1)) else resp.conflictIndex;
      next := next[peer := Min(current, fallback)];
      p := Retry;
    }

    method HandleInstallReply(requestTerm: nat, peer: NodeId, resp: InstallResponse) returns (p: Progress)
      requires Valid()
      modifies this
      ensures Valid() && (State(), p) == OnInstallReply(old(State()), requestTerm, peer, resp)
    {
      if resp.term > hard.term {
        BecomeFollower(resp.term, None);
        return Failure;
      }
      if role != Leader || hard.term != requestTerm {
        return Failure;
      }
      if !resp.success {
        return Failure;
      }
      matched, next := matched[peer := resp.installedIndex], next[peer := resp.installedIndex + 1];
      p := Success;
    }

    method CollectReplicated() returns (r: seq<nat>)
      ensures r == Replicated(cfg, State())
    {
      r := [LastIndex(log, snap)];
      var i := 0;
      while i < |cfg.peers|
        invariant 0 <= i <= |cfg.peers|
        invariant r == Replicated(cfg, State())[..i + 1]
      {
        r := r + [if cfg.peers[i] in matched then matched[cfg.peers[i]] else 0];
        i := i + 1;
      }
    }

    /** The closing region of a replication round. */
    method AdvanceAndApply(requestTerm: nat) returns (ok: bool)
      requires Valid()
      modifies this
      ensures Valid() && (State(), ok) == AdvanceCommit(cfg, old(State()), requestTerm)
    {
      hide CommitTo, Sorted, TermAt, Contiguous;
      if role != Leader || hard.term != requestTerm {
        return true;
      }
      var replicated := CollectReplicated();
      var candidate := Sorted(replicated)[|replicated| - QuorumSize(cfg)];
      if candidate <= hard.commit || TermAt(log, snap, candidate) != Some(hard.term) {
        return true;
      }
      ok := CommitAndApply(candidate);
    }
  }
}
