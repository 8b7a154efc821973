/** A cluster: every node runs the code of RaftNode, messages stay in flight for ever
    and may be delivered any number of times or never, and a node may stop at any point of a
    region and start again from its last durable write. */
module RaftCluster {
  import opened Basics
  import opened RaftTypes
  import opened RaftNode
  import opened RaftCore
  import opened RaftCommit
  import opened RaftView
  import opened RaftPhases

  /** An answer names the call (`id`) and the request it belongs to. */
  datatype Msg =
    | VoteAsk(id: nat, to: NodeId, vote: VoteRequest)
    | VoteAnswer(id: nat, from: NodeId, vote: VoteRequest, voteReply: VoteResponse)
    | AppendAsk(id: nat, to: NodeId, append: AppendRequest)
    | AppendAnswer(id: nat, from: NodeId, append: AppendRequest, appendReply: AppendResponse)
    | InstallAsk(id: nat, to: NodeId, install: InstallRequest)
    | InstallAnswer(id: nat, from: NodeId, install: InstallRequest, installReply: InstallResponse)

  datatype World = World(cfgs: map<NodeId, Config>, nodes: map<NodeId, Node>, net: set<Msg>, calls: nat, down: set<NodeId>)

  datatype Event =
    | Deliver(m: Msg)
    | Elect
    | Finish(term: nat, granters: set<NodeId>)
    | Client(command: Command)
    | Send(peer: NodeId, heartbeat: bool)
    | Advance(term: nat)
    | Prune

  /** A crash inside a region is known by the last durable image it leaves and by how many entries
      the node has handed to its state machine, ever, when it stops. */
  datatype Step =
    | Act(at: NodeId, event: Event)
    | Crash(at: NodeId, event: Event, write: nat, handed: nat)
    | Restart(at: NodeId)

  // --------------------------------------------------------------- transitions

  function Dest(m: Msg): NodeId {
    match m
    case VoteAsk(_, to, _) => to
    case AppendAsk(_, to, _) => to
    case InstallAsk(_, to, _) => to
    case VoteAnswer(_, _, req, _) => req.candidate
    case AppendAnswer(_, _, req, _) => req.leader
    case InstallAnswer(_, _, req, _) => req.leader
  }

  function OnDelivery(cfg: Config, n: Node, m: Msg): (Node, set<Msg>) {
    match m
    case VoteAsk(id, to, req) =>
      var (n', r) := OnVote(n, req);
      (n', {VoteAnswer(id, to, req, r)})
    case VoteAnswer(id, from, req, r) => (OnVoteReply(n, req.term, r).0, {})
    case AppendAsk(id, to, req) =>
      var (n', r) := OnAppend(cfg, n, req);
      (n', if r.Answer? then {AppendAnswer(id, to, req, r.value)} else {})
    case AppendAnswer(id, from, req, r) => (OnAppendReply(n, req.term, from, r).0, {})
    case InstallAsk(id, to, req) =>
      var (n', r) := OnInstall(n, req);
      (n', if r.Answer? then {InstallAnswer(id, to, req, r.value)} else {})
    case InstallAnswer(id, from, req, r) => (OnInstallReply(n, req.term, from, r).0, {})
  }

  function OnSend(cfg: Config, n: Node, peer: NodeId, heartbeat: bool, id: nat): (Node, set<Msg>) {
    var (n', out) := Prepare(cfg, n, peer, heartbeat);
    match out
    case SendAppend(req) => (n', {AppendAsk(id, peer, req)})
    case SendInstall(req) => (n', {InstallAsk(id, peer, req)})
    case _ => (n', {})
  }

  function React(cfg: Config, n: Node, e: Event, id: nat): (Node, set<Msg>) {
    match e
    case Deliver(m) => OnDelivery(cfg, n, m)
    case Elect =>
      var (n', req) := StartElection(cfg, n);
      (n', if req.Some? then set p | p in cfg.peers :: VoteAsk(id, p, req.value) else {})
    case Finish(term, granters) => (FinishElection(cfg, n, term, 1 + |granters|).0, {})
    case Client(command) => (Submit(cfg, n, command).0, {})
    case Send(peer, heartbeat) => OnSend(cfg, n, peer, heartbeat, id)
    case Advance(term) => (AdvanceCommit(cfg, n, term).0, {})
    case Prune => (TriggerSnapshot(n).0, {})
  }

  /** Node p answered yes to the candidate's request of this term. */
  ghost predicate Granted(net: set<Msg>, p: NodeId, candidate: NodeId, term: nat) {
    exists m :: m in net && m.VoteAnswer? && m.from == p && m.vote.candidate == candidate
                && m.vote.term == term && m.voteReply.granted
  }

  ghost predicate Enabled(w: World, at: NodeId, e: Event) {
    && at in w.nodes && at in w.cfgs && at !in w.down
    && match e
       case Deliver(m) => m in w.net && Dest(m) == at
       case Finish(term, granters) =>
         forall p :: p in granters ==> p in w.cfgs[at].peers && Granted(w.net, p, at, term)
       case Send(peer, _) => peer in w.cfgs[at].peers
       case _ => true
  }

  ghost predicate Next(w: World, s: Step, w': World) {
    match s
    case Act(at, e) =>
      && Enabled(w, at, e)
      && var (n', out) := React(w.cfgs[at], w.nodes[at], e, w.calls);
         w' == w.(nodes := w.nodes[at := n'], net := w.net + out, calls := w.calls + 1)
    case Crash(at, e, k, handed) =>
      && Enabled(w, at, e)
      && Stopped(w, at, React(w.cfgs[at], w.nodes[at], e, w.calls).0, k, handed, w')
    case Restart(at) =>
      && at in w.nodes && at !in w.down && |w.nodes[at].writes| > 0
      && var n := w.nodes[at];
         var r := Recover(Stored(n), n.writes, n.applies);
         r.Some? && w' == w.(nodes := w.nodes[at := r.value])
  }

  /** The region that would have ended in n' stops when image k is the last one written and `handed`
      entries have been handed over; k may be the image the region began with. A start that refuses
      the image leaves the node down for good, with the record of the whole region. */
  ghost predicate Stopped(w: World, at: NodeId, n': Node, k: nat, handed: nat, w': World)
    requires at in w.nodes
  {
    && |w.nodes[at].writes| - 1 <= k < |n'.writes|
    && |w.nodes[at].applies| <= handed && n'.writes[k].handed <= handed <= |HandedBy(n', k)|
    && var r := Recover(n'.writes[k].disk, n'.writes[..k + 1], n'.applies[..handed]);
       w' == if r.Some? then w.(nodes := w.nodes[at := r.value]) else w.(nodes := w.nodes[at := n'], down := w.down + {at})
  }

  ghost predicate ConfigOk(servers: set<NodeId>, v: NodeId, cfg: Config) {
    && cfg.id == v && v !in cfg.peers
    && (forall i, j :: 0 <= i < j < |cfg.peers| ==> cfg.peers[i] != cfg.peers[j])
    && (set p | p in cfg.peers) + {v} == servers
  }

  const FRESH_NODE := Recover(EMPTY_DISK, [Write(EMPTY_DISK, 0)], []).value

  ghost predicate Init(w: World) {
    && w.nodes.Keys == w.cfgs.Keys
    && (forall v :: v in w.nodes ==> w.nodes[v] == FRESH_NODE && ConfigOk(w.cfgs.Keys, v, w.cfgs[v]))
    && w.net == {} && w.down == {}
  }

  ghost predicate Run(ws: seq<World>, ss: seq<Step>) {
    && |ws| == |ss| + 1
    && Init(ws[0])
    && forall i :: 0 <= i < |ss| ==> Next(ws[i], ss[i], ws[i + 1])
  }

  // -------------------------------------------------------- premises on a step

  /** The request passes the checks of handle_append_entries. */
  predicate Fits(n: Node, req: AppendRequest) {
    && req.term >= n.hard.term && SnapIndex(n.snap) <= req.prevIndex
    && TermAt(n.log, n.snap, req.prevIndex) == Some(req.prevTerm)
  }

  /** The node has every entry of the request already, a heartbeat's among them. */
  predicate AlreadyHas(n: Node, req: AppendRequest) {
    forall j :: 0 <= j < |req.entries| ==> TermAt(n.log, n.snap, req.prevIndex + j + 1) == Some(req.entries[j].term)
  }

  /** The follower commits no further than the request has verified (Figure 2 of the Raft paper). Only
      a request that leaves the log alone can leave unverified entries at its end. */
  predicate CommitWithin(n: Node, req: AppendRequest) {
    Fits(n, req) && AlreadyHas(n, req) ==>
      Min(req.leaderCommit, LastIndex(n.log, n.snap)) <= Max(n.hard.commit, req.prevIndex + |req.entries|)
  }

  /** No snapshot replaces a state that has already applied more. */
  predicate InstallForward(n: Node, req: InstallRequest) {
    req.term >= n.hard.term && req.lastIndex > SnapIndex(n.snap) ==> n.hard.applied <= req.lastIndex
  }

  predicate EventPremise(tier: nat, n: Node, e: Event) {
    && (tier >= 1 && e.Deliver? && e.m.AppendAsk? ==> CommitWithin(n, e.m.append))
    && (tier >= 2 && e.Deliver? && e.m.InstallAsk? ==> InstallForward(n, e.m.install))
  }

  ghost predicate Premise(tier: nat, w: World, s: Step) {
    s.Restart? || (s.at in w.nodes ==> EventPremise(tier, w.nodes[s.at], s.event))
  }

  ghost predicate Assured(tier: nat, ws: seq<World>, ss: seq<Step>) {
    |ws| == |ss| + 1 && forall i :: 0 <= i < |ss| ==> Premise(tier, ws[i], ss[i])
  }

  // ----------------------------------------------------------------- invariant

  ghost predicate VoteReqOk(c: Core, req: VoteRequest) {
    && req.candidate in c.members
    && var m := c.members[req.candidate];
       && req.term <= m.term
       && (m.role == Candidate && m.term == req.term ==> req.lastIndex == |m.log| && req.lastTerm == LastTermOf(m.log))
  }

  ghost predicate AppendReqOk(tier: nat, c: Core, req: AppendRequest) {
    && req.term in c.logs && Carries(req, c.logs[req.term])
    && (tier >= 1 ==> req.leaderCommit <= |c.logs[req.term]| && Committed(c, req.term, c.logs[req.term][..req.leaderCommit]))
  }

  ghost predicate InstallReqOk(tier: nat, c: Core, req: InstallRequest) {
    && req.term in c.logs && Depicts(req, c.logs[req.term])
    && (tier >= 1 ==> Committed(c, req.term, c.logs[req.term][..req.lastIndex]))
    && (tier >= 2 ==> req.image == Replay(map[], c.logs[req.term][..req.lastIndex]))
  }

  ghost predicate MsgOk(tier: nat, c: Core, m: Msg) {
    match m
    case VoteAsk(_, _, req) => VoteReqOk(c, req)
    case VoteAnswer(_, from, req, r) => r.granted ==> Slot(from, req.term) in c.votes && c.votes[Slot(from, req.term)] == req.candidate
    case AppendAsk(_, _, req) => AppendReqOk(tier, c, req)
    case AppendAnswer(_, from, req, r) => tier >= 1 && r.success ==> r.matchIndex <= AckOf(c, from, req.term)
    case InstallAsk(_, _, req) => InstallReqOk(tier, c, req)
    case InstallAnswer(_, from, req, r) => tier >= 1 && r.success ==> r.installedIndex <= AckOf(c, from, req.term)
  }

  ghost predicate NetOk(tier: nat, c: Core, net: set<Msg>, calls: nat) {
    forall m :: m in net ==> MsgOk(tier, c, m) && m.id < calls
  }

  ghost predicate Inv(tier: nat, w: World, c: Core) {
    && CoreOk(tier, c)
    && w.nodes.Keys == w.cfgs.Keys == c.servers
    && (forall v :: v in c.servers ==> ConfigOk(c.servers, v, w.cfgs[v]))
    && (forall v :: v in c.servers ==> NodeOk(tier, c, v, w.nodes[v]))
    && NetOk(tier, c, w.net, w.calls)
  }

  // -------------------------------------------------------------- frame lemmas

  lemma PrefixStays(c: Core, d: Core, t: nat, i: nat)
    requires Grows(c, d) && t in c.logs && i <= |c.logs[t]|
    ensures t in d.logs && i <= |d.logs[t]| && d.logs[t][..i] == c.logs[t][..i]
  {
    assert c.logs[t] <= d.logs[t];
  }

  lemma AppendReqStays(tier: nat, c: Core, d: Core, req: AppendRequest)
    requires Grows(c, d) && AppendReqOk(tier, c, req)
    ensures AppendReqOk(tier, d, req)
  {
    var t, k := req.term, req.prevIndex + |req.entries|;
    PrefixStays(c, d, t, k);
    assert d.logs[t][req.prevIndex..k] == d.logs[t][..k][req.prevIndex..] == c.logs[t][req.prevIndex..k];
    assert req.prevIndex > 0 ==> d.logs[t][..k][req.prevIndex - 1] == c.logs[t][..k][req.prevIndex - 1];
    if tier >= 1 {
      PrefixStays(c, d, t, req.leaderCommit);
      CommittedGrows(c, d, t, t, c.logs[t][..req.leaderCommit]);
    }
  }

  lemma InstallReqStays(tier: nat, c: Core, d: Core, req: InstallRequest)
    requires Grows(c, d) && InstallReqOk(tier, c, req)
    ensures InstallReqOk(tier, d, req)
  {
    var t := req.term;
    PrefixStays(c, d, t, req.lastIndex);
    assert d.logs[t][..req.lastIndex][req.lastIndex - 1] == c.logs[t][..req.lastIndex][req.lastIndex - 1];
    if tier >= 1 { CommittedGrows(c, d, t, t, c.logs[t][..req.lastIndex]); }
  }

  lemma MsgStays(tier: nat, c: Core, d: Core, v: NodeId, m: Msg)
    requires Extends(tier, c, d, v) && MsgOk(tier, c, m)
    ensures MsgOk(tier, d, m)
  {
    hide Base, Safe;
    match m
    case AppendAsk(_, _, req) => AppendReqStays(tier, c, d, req);
    case InstallAsk(_, _, req) => InstallReqStays(tier, c, d, req);
    case VoteAsk(_, _, req) => assert req.candidate in d.members;
    case _ =>
  }

  lemma OtherNodeStays(tier: nat, c: Core, d: Core, v: NodeId, u: NodeId, n: Node)
    requires Extends(tier, c, d, v) && u in c.members && u != v && NodeOk(tier, c, u, n)
    ensures NodeOk(tier, d, u, n)
  {
    hide Base, Safe;
    if tier >= 1 {
      MatchedGrows(c, d, u, n);
      SettledGrow(c, d, u, n.applies);
    }
  }

  /** The world after server v has moved. */
  lemma Moved(tier: nat, w: World, c: Core, d: Core, v: NodeId, n': Node, out: set<Msg>, w': World)
    requires Inv(tier, w, c) && Extends(tier, c, d, v) && v in c.servers && NodeOk(tier, d, v, n')
    requires w.calls <= w'.calls && NetOk(tier, d, out, w'.calls)
    requires w' == w.(nodes := w.nodes[v := n'], net := w.net + out, calls := w'.calls, down := w'.down)
    ensures Inv(tier, w', d)
  {
    hide Base, Safe, NodeOk, MsgOk, ConfigOk;
    assert d.members.Keys == d.servers == c.servers;
    forall u | u in d.servers ensures NodeOk(tier, d, u, w'.nodes[u]) {
      if u != v { OtherNodeStays(tier, c, d, v, u, w.nodes[u]); }
    }
    forall m | m in w'.net ensures MsgOk(tier, d, m) && m.id < w'.calls {
      if m in w.net { MsgStays(tier, c, d, v, m); }
    }
  }

  // -------------------------------------------------------------------- voting

  /** Acting on an event: a phase, and messages that fit the new history. */
  ghost predicate Reacted(tier: nat, c: Core, d: Core, v: NodeId, n: Node, r: (Node, set<Msg>), id: nat) {
    && Phase(tier, c, d, v, n, r.0)
    && NetOk(tier, d, r.1, id + 1)
  }

  lemma Idle(tier: nat, c: Core, v: NodeId, n: Node)
    requires CoreOk(tier, c) && v in c.members && NodeOk(tier, c, v, n)
    ensures Phase(tier, c, c, v, n, n)
  {
    hide Base, Safe;
    ExtendsSelf(tier, c, v);
    NoWrite(tier, c, c, v, n, n);
  }

  lemma OnVoteReacts(tier: nat, c: Core, v: NodeId, n: Node, req: VoteRequest) returns (d: Core)
    requires CoreOk(tier, c) && v in c.servers && NodeOk(tier, c, v, n) && VoteReqOk(c, req)
    ensures Phase(tier, c, d, v, n, OnVote(n, req).0)
    ensures OnVote(n, req).1.granted ==> Slot(v, req.term) in d.votes && d.votes[Slot(v, req.term)] == req.candidate
  {
    hide Base, Safe, Grows;
    if req.term < n.hard.term {
      Idle(tier, c, v, n);
      d := c;
    } else {
      var a := if req.term > n.hard.term then StepDown(n, req.term, None) else n;
      var c1 := if req.term > n.hard.term then Adopt(c, v, req.term) else c;
      if req.term > n.hard.term { StepDownPhase(tier, c, v, n, req.term, None); } else { Idle(tier, c, v, n); }
      MsgStays(tier, c, c1, v, VoteAsk(0, v, req));
      d := c1;
      if OnVote(n, req).1.granted {
        d := Vote(c1, v, req.candidate);
        GrantIsUpToDate(c1, v, a, req);
        VotePhase(tier, c1, v, a, req.candidate);
        PhaseThen(tier, c, c1, d, v, n, a, OnVote(n, req).0);
      }
    }
  }

  lemma GrantIsUpToDate(c: Core, v: NodeId, a: Node, req: VoteRequest)
    requires Base(c) && v in c.members && NodeShape(a, c.members[v]) && VoteReqOk(c, req)
    requires var (lt, li) := (LastTerm(a.log, a.snap), LastIndex(a.log, a.snap));
             req.lastTerm > lt || (req.lastTerm == lt && req.lastIndex >= li)
    ensures c.members[req.candidate].role == Candidate && c.members[req.candidate].term == req.term ==>
              UpToDate(c.members[req.candidate].log, c.members[v].log)
  {
    MemberNumbered(c, v);
    ViewLast(a.log, a.snap, c.members[v].log);
  }

  lemma ElectReacts(tier: nat, c: Core, cfg: Config, n: Node, id: nat) returns (d: Core)
    requires CoreOk(tier, c) && cfg.id in c.servers && NodeOk(tier, c, cfg.id, n)
    ensures Reacted(tier, c, d, cfg.id, n, React(cfg, n, Elect, id), id)
  {
    hide Base, Safe, Grows;
    if n.role == Leader {
      Idle(tier, c, cfg.id, n);
      d := c;
    } else {
      d := Campaign(c, cfg.id);
      CampaignPhase(tier, c, cfg, n);
      var a := StartElection(cfg, n).0;
      MemberNumbered(d, cfg.id);
      ViewLast(a.log, a.snap, d.members[cfg.id].log);
    }
  }

  lemma PeerCount(servers: set<NodeId>, v: NodeId, cfg: Config)
    requires ConfigOk(servers, v, cfg)
    ensures |servers| == |cfg.peers| + 1
  {
    ElementsSize(cfg.peers);
    assert servers == Elements(cfg.peers) + {v};
  }

  function Elements(s: seq<NodeId>): set<NodeId> {
    set p | p in s
  }

  lemma {:induction false} ElementsSize(s: seq<NodeId>)
    requires forall i, j :: 0 <= i < j < |s| ==> s[i] != s[j]
    ensures |Elements(s)| == |s|
  {
    if |s| > 0 {
      ElementsSize(s[1..]);
      assert s[0] !in s[1..];
      assert Elements(s) == {s[0]} + Elements(s[1..]);
    }
  }

  lemma CandidateVotesSelf(c: Core, v: NodeId)
    requires Base(c) && v in c.servers && c.members[v].role == Candidate
    ensures v in Voters(c, c.members[v].term, v)
  {
    assert RoleOk(c, v);
  }

  lemma GranterVoted(tier: nat, c: Core, net: set<Msg>, calls: nat, p: NodeId, v: NodeId, term: nat)
    requires NetOk(tier, c, net, calls) && Granted(net, p, v, term) && p in c.servers
    ensures p in Voters(c, term, v)
  {
    var m :| m in net && m.VoteAnswer? && m.from == p && m.vote.candidate == v && m.vote.term == term && m.voteReply.granted;
    assert MsgOk(tier, c, m);
  }

  /** Granted answers and the candidate's own vote make a quorum of voters. */
  lemma GrantersAreVoters(tier: nat, c: Core, net: set<Msg>, calls: nat, cfg: Config, granters: set<NodeId>)
    requires Base(c) && c.members.Keys == c.servers && cfg.id in c.servers && ConfigOk(c.servers, cfg.id, cfg)
    requires NetOk(tier, c, net, calls) && c.members[cfg.id].role == Candidate
    requires forall p :: p in granters ==> p in cfg.peers && Granted(net, p, cfg.id, c.members[cfg.id].term)
    requires 1 + |granters| >= QuorumSize(cfg)
    ensures Quorum(c, Voters(c, c.members[cfg.id].term, cfg.id))
  {
    hide Base, Granted, NetOk;
    var v, term := cfg.id, c.members[cfg.id].term;
    CandidateVotesSelf(c, v);
    PeerCount(c.servers, v, cfg);
    forall p | p in granters ensures p in Voters(c, term, v) && p != v {
      assert p in (set q | q in cfg.peers);
      GranterVoted(tier, c, net, calls, p, v, term);
    }
    assert |granters + {v}| == |granters| + 1;
    SubsetSize(granters + {v}, Voters(c, term, v));
  }

  /** A leader alone is its own quorum. */
  lemma SoloQuorum(c: Core, cfg: Config, n: Node, k: nat)
    requires CoreOk(1, c) && cfg.id in c.servers && NodeOk(1, c, cfg.id, n) && n.role == Leader
    requires ConfigOk(c.servers, cfg.id, cfg) && QuorumSize(cfg) == 1 && k <= |c.members[cfg.id].log|
    ensures Quorum(c, Ackers(c, n.hard.term, k))
  {
    hide Base, Safe;
    PeerCount(c.servers, cfg.id, cfg);
    SubsetSize({cfg.id}, Ackers(c, n.hard.term, k));
  }

  /** Counting entry k of the leader's own term. */
  lemma LeaderCommitPhase(tier: nat, c: Core, cfg: Config, n: Node, k: nat) returns (d: Core)
    requires CoreOk(tier, c) && cfg.id in c.servers && NodeOk(tier, c, cfg.id, n) && n.role == Leader
    requires tier >= 1 ==> 1 <= k <= |c.members[cfg.id].log| && c.members[cfg.id].log[k - 1].term == n.hard.term
    requires tier >= 1 ==> n.hard.commit <= k && Quorum(c, Ackers(c, n.hard.term, k))
    ensures Phase(tier, c, d, cfg.id, n, CommitTo(cfg, n, k).0)
  {
    hide Base, Safe, Grows;
    var v := cfg.id;
    d := if tier >= 1 then LeaderCommit(c, v, k) else Commit(c, v, k);
    if tier >= 1 {
      LeaderOwns(c, v, k);
      LeaderCommitSafe(c, v, k);
      SafeIsBase(d);
      LeaderApplies(c, v, k);
    } else {
      CommitBase(c, v, k);
    }
    CommitPhase(tier, c, d, v, n, cfg, k);
  }

  lemma LeaderApplies(c: Core, v: NodeId, k: nat)
    requires Base(c) && v in c.members && c.members[v].role == Leader
    requires Own(c, c.members[v].term, k) && Quorum(c, Ackers(c, c.members[v].term, k))
    ensures k <= |c.members[v].log| && HandedOk(c, v, c.members[v].log[..k])
  {
    hide HandedOk;
    assert RoleOk(c, v);
    MemberNumbered(c, v);
    QuorumHanded(c, v, c.members[v].term, k);
  }

  lemma SafeIsBase(c: Core)
    requires Safe(c)
    ensures Base(c) && c.members.Keys == c.servers
  {}

  lemma LeaderOwns(c: Core, v: NodeId, k: nat)
    requires Base(c) && v in c.members && c.members[v].role == Leader
    requires 1 <= k <= |c.members[v].log| && c.members[v].log[k - 1].term == c.members[v].term
    ensures Own(c, c.members[v].term, k)
  {
    assert RoleOk(c, v);
  }

  /** After a leader has appended its own entry: commit at once in a cluster of one. */
  lemma SoloCommit(tier: nat, c: Core, cfg: Config, n: Node) returns (d: Core)
    requires CoreOk(tier, c) && cfg.id in c.servers && NodeOk(tier, c, cfg.id, n) && n.role == Leader
    requires ConfigOk(c.servers, cfg.id, cfg) && QuorumSize(cfg) == 1
    requires |c.members[cfg.id].log| >= 1 && LastTermOf(c.members[cfg.id].log) == n.hard.term
    ensures Phase(tier, c, d, cfg.id, n, CommitTo(cfg, n, LastIndex(n.log, n.snap)).0)
  {
    hide Base, Safe, Grows;
    MemberNumbered(c, cfg.id);
    ViewLast(n.log, n.snap, c.members[cfg.id].log);
    if tier >= 1 {
      CommitFacts(c, cfg.id);
      SoloQuorum(c, cfg, n, |c.members[cfg.id].log|);
    }
    d := LeaderCommitPhase(tier, c, cfg, n, |c.members[cfg.id].log|);
  }

  lemma FinishReacts(tier: nat, c: Core, net: set<Msg>, cfg: Config, n: Node, term: nat, granters: set<NodeId>, id: nat)
    returns (d: Core)
    requires CoreOk(tier, c) && cfg.id in c.servers && NodeOk(tier, c, cfg.id, n) && ConfigOk(c.servers, cfg.id, cfg)
    requires NetOk(tier, c, net, id)
    requires forall p :: p in granters ==> p in cfg.peers && Granted(net, p, cfg.id, term)
    ensures Reacted(tier, c, d, cfg.id, n, React(cfg, n, Finish(term, granters), id), id)
  {
    hide Base, Safe, Grows, Granted, ConfigOk, CommitTo;
    var v := cfg.id;
    d := c;
    if n.role == Candidate && n.hard.term == term && 1 + |granters| >= QuorumSize(cfg) {
      GrantersAreVoters(tier, c, net, id, cfg, granters);
      WinPhase(tier, c, cfg, n);
      d := Win(c, v, NextEntry(n, Noop));
      if QuorumSize(cfg) == 1 {
        var e := SoloCommit(tier, d, cfg, Won(cfg, n));
        PhaseThen(tier, c, d, e, v, n, Won(cfg, n), FinishElection(cfg, n, term, 1 + |granters|).0);
        d := e;
      }
    } else {
      Idle(tier, c, v, n);
    }
  }

  lemma ClientReacts(tier: nat, c: Core, cfg: Config, n: Node, command: Command, id: nat) returns (d: Core)
    requires CoreOk(tier, c) && cfg.id in c.servers && NodeOk(tier, c, cfg.id, n) && ConfigOk(c.servers, cfg.id, cfg)
    ensures Reacted(tier, c, d, cfg.id, n, React(cfg, n, Client(command), id), id)
  {
    hide Base, Safe, Grows, ImagesOk, NodeSafe, NodeImage, CommitTo, ConfigOk;
    d := c;
    if n.role == Leader {
      var a := SaveLog(AppendLocal(n, command));
      AppendPhase(tier, c, cfg.id, n, command);
      d := Append(c, cfg.id, NextEntry(n, command));
      if QuorumSize(cfg) == 1 {
        var e := SoloCommit(tier, d, cfg, a);
        PhaseThen(tier, c, d, e, cfg.id, n, a, Submit(cfg, n, command).0);
        d := e;
      }
    } else {
      Idle(tier, c, cfg.id, n);
    }
  }

  // --------------------------------------------------------------- replication

  lemma LeaderLog(c: Core, v: NodeId)
    requires Base(c) && v in c.members && c.members[v].role == Leader
    ensures c.members[v].term in c.logs && c.logs[c.members[v].term] == c.members[v].log
  {
    assert RoleOk(c, v);
  }

  /** What a leader sends repeats its log. */
  lemma PreparedAppend(cfg: Config, n: Node, full: Log, peer: NodeId, heartbeat: bool)
    requires Holds(n.log, n.snap, full) && Numbered(full) && Prepare(cfg, n, peer, heartbeat).1.SendAppend?
    ensures Carries(Prepare(cfg, n, peer, heartbeat).1.append, full)
  {
    hide Holds, Numbered, TermAt, EntriesFrom, LastIndex, Contiguous;
    var next := if peer in n.next then n.next[peer] else LastIndex(n.log, n.snap) + 1;
    var previous := if next == 0 then 0 else next - 1;
    ViewLast(n.log, n.snap, full);
    ViewTerm(n.log, n.snap, full, previous);
    if SnapIndex(n.snap) < next <= |full| {
      ViewEntries(n.log, n.snap, full, next, cfg.batch);
    } else {
      NoEntries(n.log, n.snap, next, cfg.batch);
    }
  }

  lemma NoEntries(log: Log, snap: Option<Snapshot>, i: nat, batch: nat)
    requires i <= SnapIndex(snap) || i > LastIndex(log, snap)
    ensures EntriesFrom(log, snap, i, batch) == []
  {}

  lemma PreparedInstall(tier: nat, c: Core, cfg: Config, n: Node, peer: NodeId, heartbeat: bool)
    requires CoreOk(tier, c) && cfg.id in c.servers && NodeOk(tier, c, cfg.id, n)
    requires Prepare(cfg, n, peer, heartbeat).1.SendInstall?
    ensures InstallReqOk(tier, c, Prepare(cfg, n, peer, heartbeat).1.install)
  {
    hide Base, Safe, Grows, Replay, TermAt, EntriesFrom;
    LeaderLog(c, cfg.id);
    if tier >= 1 {
      var m := c.members[cfg.id];
      CommitFacts(c, cfg.id);
      CommittedPrefix(c, m.term, m.log[..m.commit], m.log[..n.snap.value.index]);
    }
  }

  lemma PreparedAppendOk(tier: nat, c: Core, cfg: Config, n: Node, peer: NodeId, heartbeat: bool)
    requires CoreOk(tier, c) && cfg.id in c.servers && NodeOk(tier, c, cfg.id, n)
    requires Prepare(cfg, n, peer, heartbeat).1.SendAppend?
    ensures AppendReqOk(tier, c, Prepare(cfg, n, peer, heartbeat).1.append)
  {
    hide Base, Safe, Grows, Replay, TermAt, EntriesFrom, Carries;
    LeaderLog(c, cfg.id);
    MemberNumbered(c, cfg.id);
    if tier >= 1 { CommitFacts(c, cfg.id); }
    PreparedAppend(cfg, n, c.members[cfg.id].log, peer, heartbeat);
  }

  lemma BookkeepingPhase(tier: nat, c: Core, v: NodeId, n: Node, next: map<NodeId, nat>)
    requires CoreOk(tier, c) && v in c.members && NodeOk(tier, c, v, n)
    ensures Phase(tier, c, c, v, n, n.(next := next))
  {
    hide Base, Safe;
    ExtendsSelf(tier, c, v);
    NoWrite(tier, c, c, v, n, n.(next := next));
  }

  lemma SendReacts(tier: nat, c: Core, cfg: Config, n: Node, peer: NodeId, heartbeat: bool, id: nat)
    requires CoreOk(tier, c) && cfg.id in c.servers && cfg.id in c.members && NodeOk(tier, c, cfg.id, n)
    ensures Reacted(tier, c, c, cfg.id, n, React(cfg, n, Send(peer, heartbeat), id), id)
  {
    hide CoreOk, Extends, AppendReqOk, InstallReqOk, TermAt, EntriesFrom, NodeOk, Phase;
    var (n', out) := Prepare(cfg, n, peer, heartbeat);
    assert n' == n.(next := n'.next);
    BookkeepingPhase(tier, c, cfg.id, n, n'.next);
    if out.SendAppend? { PreparedAppendOk(tier, c, cfg, n, peer, heartbeat); }
    if out.SendInstall? { PreparedInstall(tier, c, cfg, n, peer, heartbeat); }
  }

  lemma StepDownReacts(tier: nat, c: Core, v: NodeId, n: Node, term: nat) returns (d: Core)
    requires CoreOk(tier, c) && v in c.servers && NodeOk(tier, c, v, n) && term > n.hard.term
    ensures Phase(tier, c, d, v, n, StepDown(n, term, None))
  {
    StepDownPhase(tier, c, v, n, term, None);
    d := Adopt(c, v, term);
  }

  /** Replies to votes, appends and snapshots only move bookkeeping, or end a leadership. */
  lemma ReplyReacts(tier: nat, c: Core, cfg: Config, n: Node, m: Msg) returns (d: Core)
    requires CoreOk(tier, c) && cfg.id in c.servers && NodeOk(tier, c, cfg.id, n) && MsgOk(tier, c, m)
    requires m.VoteAnswer? || m.AppendAnswer? || m.InstallAnswer?
    ensures Phase(tier, c, d, cfg.id, n, OnDelivery(cfg, n, m).0) && OnDelivery(cfg, n, m).1 == {}
  {
    hide Base, Safe, Grows, StepDown;
    var term := match m case VoteAnswer(_, _, _, r) => r.term case AppendAnswer(_, _, _, r) => r.term case InstallAnswer(_, _, _, r) => r.term;
    d := c;
    if term > n.hard.term {
      d := StepDownReacts(tier, c, cfg.id, n, term);
    } else {
      var n' := OnDelivery(cfg, n, m).0;
      match m
      case VoteAnswer(_, _, _, _) => Idle(tier, c, cfg.id, n);
      case AppendAnswer(_, from, req, r) =>
        if n.role == Leader && n.hard.term == req.term && r.success {
          MatchedPhase(tier, c, cfg.id, n, from, r.matchIndex, n'.next);
        } else {
          ExtendsSelf(tier, c, cfg.id);
          NoWrite(tier, c, c, cfg.id, n, n');
        }
      case InstallAnswer(_, from, req, r) =>
        if n.role == Leader && n.hard.term == req.term && r.success {
          MatchedPhase(tier, c, cfg.id, n, from, r.installedIndex, n'.next);
        } else {
          Idle(tier, c, cfg.id, n);
        }
    }
  }

  // ----------------------------------------------------------- counting replies

  lemma {:induction false} CountIsQuorum(ids: seq<NodeId>, vals: seq<nat>, x: nat, s: set<NodeId>)
    requires |ids| == |vals| && forall i, j :: 0 <= i < j < |ids| ==> ids[i] != ids[j]
    requires forall i :: 0 <= i < |ids| && vals[i] >= x ==> ids[i] in s
    ensures CountAtLeast(vals, x) <= |s|
  {
    if |ids| > 0 {
      var t := s - {ids[0]};
      CountIsQuorum(ids[1..], vals[1..], x, if vals[0] >= x then t else s);
    }
  }

  /** Enough match indexes at or above x: a quorum has confirmed x. */
  lemma ReplicatedIsAcked(c: Core, cfg: Config, n: Node, x: nat)
    requires c.members.Keys == c.servers && cfg.id in c.servers && ConfigOk(c.servers, cfg.id, cfg)
    requires NodeShape(n, c.members[cfg.id]) && Numbered(c.members[cfg.id].log) && MatchedOk(c, cfg.id, n)
    requires n.role == Leader && CountAtLeast(Replicated(cfg, n), x) >= QuorumSize(cfg)
    ensures Quorum(c, Ackers(c, n.hard.term, x))
  {
    var ids, vals := [cfg.id] + cfg.peers, Replicated(cfg, n);
    ViewLast(n.log, n.snap, c.members[cfg.id].log);
    PeerCount(c.servers, cfg.id, cfg);
    forall i | 0 <= i < |ids| && vals[i] >= x ensures ids[i] in Ackers(c, n.hard.term, x) {
      assert ids[i] in (set p | p in cfg.peers) + {cfg.id};
      if i > 0 { assert ids[i] == cfg.peers[i - 1]; }
    }
    CountIsQuorum(ids, vals, x, Ackers(c, n.hard.term, x));
  }

  lemma AdvanceReacts(tier: nat, c: Core, cfg: Config, n: Node, term: nat, id: nat) returns (d: Core)
    requires CoreOk(tier, c) && cfg.id in c.servers && NodeOk(tier, c, cfg.id, n) && ConfigOk(c.servers, cfg.id, cfg)
    ensures Reacted(tier, c, d, cfg.id, n, React(cfg, n, Advance(term), id), id)
  {
    hide Base, Safe, Grows, QuorumIndex, TermAt, ConfigOk, CommitTo;
    var k := QuorumIndex(cfg, n);
    if n.role != Leader || n.hard.term != term || k <= n.hard.commit || TermAt(n.log, n.snap, k) != Some(n.hard.term) {
      Idle(tier, c, cfg.id, n);
      d := c;
    } else {
      MemberNumbered(c, cfg.id);
      ViewTerm(n.log, n.snap, c.members[cfg.id].log, k);
      if tier >= 1 {
        QuorumIndexIsGreatest(cfg, n, k);
        ReplicatedIsAcked(c, cfg, n, k);
      }
      d := LeaderCommitPhase(tier, c, cfg, n, k);
    }
  }

  // ----------------------------------------------------------------- followers

  lemma RecognisePhase(tier: nat, c: Core, v: NodeId, n: Node, term: nat, leader: NodeId) returns (d: Core)
    requires CoreOk(tier, c) && v in c.servers && NodeOk(tier, c, v, n) && term >= n.hard.term
    ensures Phase(tier, c, d, v, n, Recognise(n, term, leader)) && v in d.servers
    ensures var a := Recognise(n, term, leader); a.role == Follower && a.hard.term == term
  {
    hide Base, Safe, Grows;
    var a := Recognise(n, term, leader);
    if term > n.hard.term || n.role != Follower {
      StepDownPhase(tier, c, v, n, term, Some(leader));
      d := Adopt(c, v, term);
    } else {
      ExtendsSelf(tier, c, v);
      NoWrite(tier, c, c, v, n, a);
      d := c;
    }
  }

  /** The commit index a follower takes from the leader covers only entries it has verified. */
  lemma VerifiedCommit(tier: nat, c: Core, v: NodeId, req: AppendRequest, k: nat)
    requires CoreOk(tier, c) && tier >= 1 && v in c.servers && c.members[v].term == req.term && AppendReqOk(tier, c, req)
    requires c.logs[req.term][..req.prevIndex + |req.entries|] <= c.members[v].log
    requires c.members[v].commit <= k <= Max(c.members[v].commit, req.prevIndex + |req.entries|) && k <= req.leaderCommit
    ensures k <= |c.members[v].log| && Committed(c, req.term, c.members[v].log[..k])
  {
    hide Base, Safe;
    CommitFacts(c, v);
    if k > c.members[v].commit {
      var l, x := c.logs[req.term], req.prevIndex + |req.entries|;
      assert c.members[v].log[..k] == l[..x][..k] == l[..k];
      CommittedPrefix(c, req.term, l[..req.leaderCommit], l[..k]);
    }
  }

  lemma FollowPhase(tier: nat, c: Core, cfg: Config, n: Node, req: AppendRequest) returns (d: Core)
    requires CoreOk(tier, c) && cfg.id in c.servers && NodeOk(tier, c, cfg.id, n)
    requires n.hard.term == req.term && AppendReqOk(tier, c, req)
    requires c.logs[req.term][..req.prevIndex + |req.entries|] <= c.members[cfg.id].log
    requires tier >= 1 && req.leaderCommit > n.hard.commit ==>
               Min(req.leaderCommit, LastIndex(n.log, n.snap)) <= Max(n.hard.commit, req.prevIndex + |req.entries|)
    ensures Phase(tier, c, d, cfg.id, n, FollowCommit(cfg, n, req).0)
  {
    hide Base, Safe, Grows, AppendReqOk, CommitTo;
    if req.leaderCommit > n.hard.commit {
      var k := Min(req.leaderCommit, LastIndex(n.log, n.snap));
      d := Commit(c, cfg.id, k);
      CommitBase(c, cfg.id, k);
      if tier >= 1 {
        MemberNumbered(c, cfg.id);
        ViewLast(n.log, n.snap, c.members[cfg.id].log);
        CommitFacts(c, cfg.id);
        VerifiedCommit(tier, c, cfg.id, req, k);
        CommitSafe(c, cfg.id, k);
        FollowerApplies(c, cfg.id, k);
      }
      CommitPhase(tier, c, d, cfg.id, n, cfg, k);
    } else {
      Idle(tier, c, cfg.id, n);
      d := c;
    }
  }

  lemma FollowerApplies(c: Core, v: NodeId, k: nat)
    requires Safe(c) && v in c.members && k <= |c.members[v].log| && Committed(c, c.members[v].term, c.members[v].log[..k])
    ensures HandedOk(c, v, c.members[v].log[..k])
  {
    hide SettledOk, HandedOk, Committed, Numbered;
    MemberNumbered(c, v);
    NumberedPrefix(c.members[v].log, k);
    PrefixCounted(c, v, c.members[v].term, c.members[v].log[..k], c.members[v].log[..k]);
    SettledHanded(c, v, c.members[v].log[..k]);
  }

  lemma NumberedPrefix(l: Log, k: nat)
    requires Numbered(l) && k <= |l|
    ensures Numbered(l[..k])
  {}

  lemma TakenOverHas(tier: nat, c: Core, v: NodeId, k: nat)
    requires CoreOk(tier, c) && v in c.servers && c.members[v].role == Follower
    requires c.members[v].term in c.logs && k <= |c.logs[c.members[v].term]|
    ensures var d := TakenOver(c, v, k);
            && d.logs == c.logs && v in d.servers && d.members[v].term == c.members[v].term
            && c.logs[c.members[v].term][..k] <= d.members[v].log && k <= AckOf(d, v, d.members[v].term)
  {
    hide Base, Safe, Grows;
    TakeOverExtends(tier, c, v, k);
  }

  lemma TakeReacts(tier: nat, c: Core, cfg: Config, n: Node, req: AppendRequest) returns (d: Core)
    requires CoreOk(tier, c) && cfg.id in c.servers && NodeOk(tier, c, cfg.id, n) && n.role == Follower
    requires n.hard.term == req.term && AppendReqOk(tier, c, req)
    requires SnapIndex(n.snap) <= req.prevIndex && TermAt(n.log, n.snap, req.prevIndex) == Some(req.prevTerm)
    requires tier >= 1 ==> CommitWithin(n, req)
    ensures Phase(tier, c, d, cfg.id, n, TakeEntries(cfg, n, req).0)
    ensures req.prevIndex + |req.entries| <= AckOf(d, cfg.id, req.term)
  {
    hide Base, Safe, MergeEntries, TermAt, CommitTo, Holds, CommitWithin, ImagesOk, NodeSafe, NodeImage;
    var v, k := cfg.id, req.prevIndex + |req.entries|;
    MergePhase(tier, c, v, n, req);
    TakenOverHas(tier, c, v, k);
    var c1, a := TakenOver(c, v, k), Merged(n, req);
    AppendReqStays(tier, c, c1, req);
    assert a.hard == n.hard;
    if tier >= 1 && MergeEntries(n.log, n.snap, req).Unchanged? { NothingNew(n, req); }
    assert TakeEntries(cfg, n, req) == FollowCommit(cfg, a, req);
    d := FollowPhase(tier, c1, cfg, a, req);
    PhaseThen(tier, c, c1, d, v, n, a, FollowCommit(cfg, a, req).0);
    assert AckOf(c1, v, req.term) <= AckOf(d, v, req.term);
  }

  lemma NothingNew(n: Node, req: AppendRequest)
    requires MergeEntries(n.log, n.snap, req).Unchanged? && CommitWithin(n, req) && Fits(n, req)
    ensures Min(req.leaderCommit, LastIndex(n.log, n.snap)) <= Max(n.hard.commit, req.prevIndex + |req.entries|)
  {
    hide TermAt, FirstStop;
    FirstStopBound(n.log, n.snap, req, 0);
    assert AlreadyHas(n, req);
  }

  lemma AcceptedMatch(cfg: Config, n: Node, req: AppendRequest, l: Log)
    requires Carries(req, l) && Numbered(l)
    requires TakeEntries(cfg, n, req).1.Answer? && TakeEntries(cfg, n, req).1.value.success
    ensures TakeEntries(cfg, n, req).1.value.matchIndex <= req.prevIndex + |req.entries|
  {
    hide MergeEntries, CommitTo;
    if |req.entries| > 0 { assert req.entries[|req.entries| - 1] == l[req.prevIndex + |req.entries| - 1]; }
  }

  lemma AppendReacts(tier: nat, c: Core, cfg: Config, n: Node, m: Msg, id: nat) returns (d: Core)
    requires CoreOk(tier, c) && cfg.id in c.servers && NodeOk(tier, c, cfg.id, n)
    requires m.AppendAsk? && m.to == cfg.id && m.id < id && MsgOk(tier, c, m)
    requires tier >= 1 ==> CommitWithin(n, m.append)
    ensures Reacted(tier, c, d, cfg.id, n, OnDelivery(cfg, n, m), id)
  {
    hide Base, Safe, Grows, TakeEntries, TermAt, Recognise, AppendReqOk, CommitWithin, NodeSafe, NodeImage, NodeShape, ImagesOk;
    var v, req := cfg.id, m.append;
    if req.term < n.hard.term {
      Idle(tier, c, v, n);
      d := c;
    } else {
      d := RecognisePhase(tier, c, v, n, req.term, req.leader);
      var a := Recognise(n, req.term, req.leader);
      MsgStays(tier, c, d, v, m);
      if SnapIndex(a.snap) <= req.prevIndex && TermAt(a.log, a.snap, req.prevIndex) == Some(req.prevTerm) {
        if tier >= 1 { RecogniseWithin(n, req); }
        var e := TakeReacts(tier, d, cfg, a, req);
        PhaseThen(tier, c, d, e, v, n, a, TakeEntries(cfg, a, req).0);
        AcceptedBound(tier, d, cfg, a, req);
        d := e;
      }
    }
  }

  lemma RecogniseWithin(n: Node, req: AppendRequest)
    requires req.term >= n.hard.term && CommitWithin(n, req)
    ensures CommitWithin(Recognise(n, req.term, req.leader), req)
  {
    hide TermAt;
    var a := Recognise(n, req.term, req.leader);
    assert a.log == n.log && a.snap == n.snap && a.hard.commit == n.hard.commit && a.hard.term == req.term;
    if Fits(a, req) && AlreadyHas(a, req) { assert Fits(n, req) && AlreadyHas(n, req); }
  }

  lemma AcceptedBound(tier: nat, c: Core, cfg: Config, a: Node, req: AppendRequest)
    requires Base(c) && AppendReqOk(tier, c, req)
    ensures var r := TakeEntries(cfg, a, req).1;
            r.Answer? && r.value.success ==> r.value.matchIndex <= req.prevIndex + |req.entries|
  {
    hide TakeEntries;
    var r := TakeEntries(cfg, a, req).1;
    if r.Answer? && r.value.success {
      LogOkNumbered(c, c.logs[req.term], req.term);
      AcceptedMatch(cfg, a, req, c.logs[req.term]);
    }
  }

  /** A snapshot that is not newer is confirmed up to the follower's own snapshot. */
  lemma AckSnapshotPhase(tier: nat, c: Core, v: NodeId, n: Node)
    requires CoreOk(tier, c) && v in c.servers && NodeOk(tier, c, v, n) && n.role == Follower && n.hard.term in c.logs
    ensures Phase(tier, c, Ack(c, v, SnapIndex(n.snap)), v, n, n)
    ensures SnapIndex(n.snap) <= AckOf(Ack(c, v, SnapIndex(n.snap)), v, n.hard.term)
  {
    hide Base, Grows, Holds;
    var k := SnapIndex(n.snap);
    var d := Ack(c, v, k);
    AckBase(c, v, k);
    if tier >= 1 {
      SnapshotInLeader(c, v, n);
      AckSafe(c, v, k);
      SettledGrow(c, d, v, n.applies);
    }
    NoWrite(tier, c, d, v, n, n);
  }

  lemma SnapshotInLeader(c: Core, v: NodeId, n: Node)
    requires Safe(c) && v in c.members && NodeShape(n, c.members[v]) && n.hard.term in c.logs
    requires SnapIndex(n.snap) <= n.hard.commit
    ensures SnapIndex(n.snap) <= |c.logs[n.hard.term]| && c.logs[n.hard.term][..SnapIndex(n.snap)] <= c.members[v].log
  {
    var m, k := c.members[v], SnapIndex(n.snap);
    CommitFacts(c, v);
    CommittedInLeader(c, m.term, m.log[..m.commit], m.term);
    assert c.logs[m.term][..k] == m.log[..m.commit][..k] == m.log[..k];
  }

  lemma InstallReacts(tier: nat, c: Core, cfg: Config, n: Node, m: Msg, id: nat) returns (d: Core)
    requires CoreOk(tier, c) && cfg.id in c.servers && NodeOk(tier, c, cfg.id, n)
    requires m.InstallAsk? && m.to == cfg.id && m.id < id && MsgOk(tier, c, m)
    requires tier >= 2 ==> InstallForward(n, m.install)
    ensures Reacted(tier, c, d, cfg.id, n, OnDelivery(cfg, n, m), id)
  {
    hide Base, Safe, Extends, NodeOk, ImagesOk, InstallLog, Recognise, InstallReqOk, InstallForward;
    var v, req := cfg.id, m.install;
    if req.term < n.hard.term {
      Idle(tier, c, v, n);
      d := c;
    } else {
      d := RecognisePhase(tier, c, v, n, req.term, req.leader);
      var a := Recognise(n, req.term, req.leader);
      ExtendsOk(tier, c, d, v);
      MsgStays(tier, c, d, v, m);
      RecogniseForward(n, req);
      var e := InstallTaken(tier, d, v, a, req);
      PhaseThen(tier, c, d, e, v, n, a, TakeInstall(a, req));
      InstallIsTaken(n, req);
      d := e;
    }
  }

  lemma ExtendsOk(tier: nat, c: Core, d: Core, v: NodeId)
    requires Extends(tier, c, d, v)
    ensures CoreOk(tier, d)
  {
    hide CoreOk;
  }

  lemma RecogniseForward(n: Node, req: InstallRequest)
    requires req.term >= n.hard.term
    ensures InstallForward(n, req) ==> InstallForward(Recognise(n, req.term, req.leader), req)
  {}

  /** What an install does to a node that has recognised its sender, and the index it then reports. */
  function TakeInstall(a: Node, req: InstallRequest): Node {
    if a.snap.Some? && req.lastIndex <= SnapIndex(a.snap) then a else Installed(a, req)
  }

  lemma InstallIsTaken(n: Node, req: InstallRequest)
    requires req.term >= n.hard.term && req.lastIndex >= 1
    ensures var a := Recognise(n, req.term, req.leader);
            OnInstall(n, req) == (TakeInstall(a, req), Answer(InstallResponse(a.hard.term, true, SnapIndex(TakeInstall(a, req).snap))))
  {
    hide InstallLog, Recognise;
  }

  lemma InstallTaken(tier: nat, c: Core, v: NodeId, a: Node, req: InstallRequest) returns (d: Core)
    requires CoreOk(tier, c) && v in c.servers && NodeOk(tier, c, v, a) && a.role == Follower && a.hard.term == req.term
    requires InstallReqOk(tier, c, req) && (tier >= 2 ==> InstallForward(a, req))
    ensures Phase(tier, c, d, v, a, TakeInstall(a, req)) && req.lastIndex >= 1
    ensures SnapIndex(TakeInstall(a, req).snap) <= AckOf(d, v, req.term)
  {
    hide Base, Safe, Grows, InstallLog, Committed, Replay, Holds;
    if a.snap.Some? && req.lastIndex <= SnapIndex(a.snap) {
      AckSnapshotPhase(tier, c, v, a);
      d := Ack(c, v, SnapIndex(a.snap));
    } else {
      InstallPhase(tier, c, v, a, req);
      d := InstalledCore(c, v, req.lastIndex);
      InstalledAck(tier, c, v, req.lastIndex);
    }
  }

  lemma InstalledAck(tier: nat, c: Core, v: NodeId, k: nat)
    requires v in c.members && c.members[v].term in c.logs && k <= |c.logs[c.members[v].term]|
    ensures k <= AckOf(InstalledCore(c, v, k), v, c.members[v].term)
  {}

  // ------------------------------------------------------------------ one step

  lemma DeliverReacts(tier: nat, c: Core, cfg: Config, n: Node, m: Msg, id: nat) returns (d: Core)
    requires CoreOk(tier, c) && cfg.id in c.servers && NodeOk(tier, c, cfg.id, n)
    requires Dest(m) == cfg.id && m.id < id && MsgOk(tier, c, m) && EventPremise(tier, n, Deliver(m))
    ensures Reacted(tier, c, d, cfg.id, n, OnDelivery(cfg, n, m), id)
  {
    hide CoreOk, NodeOk, Phase, OnAppend, OnInstall, OnVoteReply, OnAppendReply, OnInstallReply;
    match m
    case VoteAsk(_, _, req) => d := OnVoteReacts(tier, c, cfg.id, n, req);
    case AppendAsk(_, _, _) => d := AppendReacts(tier, c, cfg, n, m, id);
    case InstallAsk(_, _, _) => d := InstallReacts(tier, c, cfg, n, m, id);
    case _ => d := ReplyReacts(tier, c, cfg, n, m);
  }

  lemma PruneReacts(tier: nat, c: Core, cfg: Config, n: Node, id: nat)
    requires CoreOk(tier, c) && cfg.id in c.servers && NodeOk(tier, c, cfg.id, n)
    ensures Reacted(tier, c, c, cfg.id, n, React(cfg, n, Prune, id), id)
  {
    hide Base, Safe, Grows, MaybeSnapshot;
    if n.hard.applied == 0 { Idle(tier, c, cfg.id, n); } else { SnapshotPhase(tier, c, cfg.id, n, 1); }
  }

  lemma EventReacts(tier: nat, w: World, c: Core, at: NodeId, e: Event) returns (d: Core)
    requires Inv(tier, w, c) && Enabled(w, at, e) && EventPremise(tier, w.nodes[at], e)
    ensures Reacted(tier, c, d, at, w.nodes[at], React(w.cfgs[at], w.nodes[at], e, w.calls), w.calls)
  {
    hide Base, Safe, NodeOk, Reacted, React, EventPremise, MsgOk, Granted;
    var cfg, n := w.cfgs[at], w.nodes[at];
    assert ConfigOk(c.servers, at, cfg) && NodeOk(tier, c, at, n);
    match e
    case Deliver(m) => d := DeliverReacts(tier, c, cfg, n, m, w.calls); DeliverIsReact(cfg, n, m, w.calls);
    case Elect => d := ElectReacts(tier, c, cfg, n, w.calls);
    case Finish(term, granters) => d := FinishReacts(tier, c, w.net, cfg, n, term, granters, w.calls);
    case Client(command) => d := ClientReacts(tier, c, cfg, n, command, w.calls);
    case Send(peer, heartbeat) => SendReacts(tier, c, cfg, n, peer, heartbeat, w.calls); d := c;
    case Advance(term) => d := AdvanceReacts(tier, c, cfg, n, term, w.calls);
    case Prune => PruneReacts(tier, c, cfg, n, w.calls); d := c;
  }

  lemma DeliverIsReact(cfg: Config, n: Node, m: Msg, id: nat)
    ensures React(cfg, n, Deliver(m), id) == OnDelivery(cfg, n, m)
  {}

  /** Starting again from a durable image. */
  lemma RestartAt(tier: nat, c: Core, v: NodeId, x: Disk, writes: seq<Write>, applies: seq<LogEntry>) returns (d: Core)
    requires CoreOk(tier, c) && v in c.servers && CrashOk(tier, c, v, x, applies)
    requires |writes| > 0 && writes[|writes| - 1].disk == x && Recover(x, writes, applies).Some?
    ensures Extends(tier, c, d, v) && NodeOk(tier, d, v, Recover(x, writes, applies).value)
  {
    hide Base, Safe, Grows, Recover, DiskOk, NodeOk, HandedOk;
    RecoverIgnoresHistory(x, writes, applies);
    var e :| Continues(tier, c, e, v, x, applies);
    ServersKept(c, e);
    RestartNode(tier, e, v, x, writes, applies);
    d := RestartCore(e, v, Recover(x, writes, applies).value.hard.commit);
    ExtendsTransitive(tier, c, e, d, v);
  }

  lemma ServersKept(c: Core, d: Core)
    requires Grows(c, d)
    ensures d.servers == c.servers && d.members.Keys == c.members.Keys
  {}

  lemma RestartKeeps(tier: nat, w: World, c: Core, at: NodeId, x: Disk, writes: seq<Write>, applies: seq<LogEntry>, w': World) returns (d: Core)
    requires Inv(tier, w, c) && at in c.servers && CrashOk(tier, c, at, x, applies)
    requires |writes| > 0 && writes[|writes| - 1].disk == x && Recover(x, writes, applies).Some?
    requires w' == w.(nodes := w.nodes[at := Recover(x, writes, applies).value])
    ensures Inv(tier, w', d) && Grows(c, d)
  {
    hide Base, Safe, Grows, ConfigOk, Recover, CrashOk, MsgOk, NodeOk;
    d := RestartAt(tier, c, at, x, writes, applies);
    assert w' == w.(nodes := w.nodes[at := Recover(x, writes, applies).value], net := w.net + {}, calls := w'.calls, down := w.down);
    Moved(tier, w, c, d, at, Recover(x, writes, applies).value, {}, w');
  }

  lemma RecoverIgnoresHistory(x: Disk, writes: seq<Write>, applies: seq<LogEntry>)
    ensures Recover(x, writes, applies).Some? == Recover(x, [], []).Some?
  {}

  /** Every step keeps the invariant and only adds to history. */
  lemma NextKeeps(tier: nat, w: World, s: Step, w': World, c: Core) returns (d: Core)
    requires Inv(tier, w, c) && Next(w, s, w') && Premise(tier, w, s)
    ensures Inv(tier, w', d) && Grows(c, d)
  {
    hide CoreOk, NodeOk, MsgOk, ConfigOk, React, EventPremise, Recover, Enabled, CrashOk, Grows;
    match s
    case Act(at, e) => d := ActKeeps(tier, w, at, e, w', c);
    case Crash(at, e, k, handed) => d := CrashKeeps(tier, w, at, e, k, handed, w', c);
    case Restart(at) =>
      var n := w.nodes[at];
      InvKeys(tier, w, c);
      OwnCrashOk(tier, c, at, n);
      d := RestartKeeps(tier, w, c, at, Stored(n), n.writes, n.applies, w');
  }

  lemma OwnCrashOk(tier: nat, c: Core, v: NodeId, n: Node)
    requires CoreOk(tier, c) && v in c.members && NodeOk(tier, c, v, n)
    ensures CrashOk(tier, c, v, Stored(n), n.applies)
  {
    hide Base, Safe;
    QuietCrashOk(tier, c, v, n);
  }

  lemma InvKeys(tier: nat, w: World, c: Core)
    requires Inv(tier, w, c)
    ensures c.members.Keys == c.servers == w.nodes.Keys
    ensures forall v :: v in w.nodes ==> NodeOk(tier, c, v, w.nodes[v])
  {}

  lemma ActKeeps(tier: nat, w: World, at: NodeId, e: Event, w': World, c: Core) returns (d: Core)
    requires Inv(tier, w, c) && Next(w, Act(at, e), w') && Premise(tier, w, Act(at, e))
    ensures Inv(tier, w', d) && Grows(c, d)
  {
    hide Base, Safe, NodeOk, MsgOk, ConfigOk, React, EventPremise, Grows, ImagesOk;
    d := EventReacts(tier, w, c, at, e);
    var (n', out) := React(w.cfgs[at], w.nodes[at], e, w.calls);
    Moved(tier, w, c, d, at, n', out, w');
  }

  lemma CrashKeeps(tier: nat, w: World, at: NodeId, e: Event, k: nat, handed: nat, w': World, c: Core) returns (d: Core)
    requires Inv(tier, w, c) && Next(w, Crash(at, e, k, handed), w') && Premise(tier, w, Crash(at, e, k, handed))
    ensures Inv(tier, w', d) && Grows(c, d)
  {
    hide Base, Safe, NodeOk, MsgOk, ConfigOk, React, EventPremise, Recover, Grows, CrashOk;
    var c1 := EventReacts(tier, w, c, at, e);
    var n' := React(w.cfgs[at], w.nodes[at], e, w.calls).0;
    var x, past, applies := n'.writes[k].disk, n'.writes[..k + 1], n'.applies[..handed];
    if Recover(x, past, applies).Some? {
      CrashImage(tier, c, at, w.nodes[at], n', k);
      FewerApplies(tier, c, at, x, HandedBy(n', k), applies);
      d := RestartKeeps(tier, w, c, at, x, past, applies, w');
    } else {
      d := c1;
      Moved(tier, w, c, d, at, n', {}, w');
    }
  }

  /** Fewer entries handed over: nothing more to ask of the history. */
  lemma FewerApplies(tier: nat, c: Core, v: NodeId, x: Disk, more: seq<LogEntry>, applies: seq<LogEntry>)
    requires CrashOk(tier, c, v, x, more) && applies <= more
    ensures CrashOk(tier, c, v, x, applies)
  {
    hide Extends, DiskOk, Recover;
    if !Recover(x, [], []).None? {
      var e :| Continues(tier, c, e, v, x, more);
      forall a | a in applies ensures a in more { assert applies == more[..|applies|]; }
      assert Continues(tier, c, e, v, x, applies);
    }
  }
}
