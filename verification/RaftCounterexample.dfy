/** Runs that show which premises are needed. In the first, two nodes apply different commands at one
    index: line 289 of node.cpp bounds a follower's commit index by its own last index, so a
    heartbeat, which verifies nothing past its previous index, can commit a suffix the leader never
    had. In the second, a lost command is reported as committed; in the third, a leader whose snapshot is
    older than what a follower has applied takes the follower's image back. In each of them a leader
    handles the answer of a call before it makes the next one. */
module RaftCounterexample {
  import opened Basics
  import opened RaftTypes
  import opened RaftNode
  import opened RaftCluster

  const A: NodeId := 1
  const B: NodeId := 2
  const C: NodeId := 3
  const CFG_A := Config(A, [B, C], 8, 0)
  const CFG_B := Config(B, [A, C], 8, 0)
  const CFG_C := Config(C, [A, B], 8, 0)
  const OLD := LogEntry(2, 1, Put([107], [0]))
  const NEW := LogEntry(2, 2, Put([107], [1]))
  const FILL := AppendRequest(2, B, 0, 0, [LogEntry(1, 2, Noop), NEW], 0)
  const FILLED := AppendResponse(2, true, 2, 0)
  const BEAT := AppendRequest(2, B, 0, 0, [], 2)

  // ------------------------------------------------------------ steps of a node

  predicate At(n: Node, role: Role, hard: HardState, log: Log) {
    n.role == role && n.hard == hard && n.log == log && n.snap == None
  }

  lemma Stands(cfg: Config, n: Node)
    requires n.role != Leader && n.snap == None && n.log == []
    ensures At(StartElection(cfg, n).0, Candidate, n.hard.(term := n.hard.term + 1, votedFor := Some(cfg.id)), [])
    ensures StartElection(cfg, n).1 == Some(VoteRequest(n.hard.term + 1, cfg.id, 0, 0)) && StartElection(cfg, n).0.image == n.image
  {}

  lemma Grants(n: Node, t: nat, v: NodeId)
    requires n.hard.term < t && n.snap == None && n.log == []
    ensures At(OnVote(n, VoteRequest(t, v, 0, 0)).0, Follower, n.hard.(term := t, votedFor := Some(v)), [])
    ensures OnVote(n, VoteRequest(t, v, 0, 0)).1 == VoteResponse(t, true)
  {}

  lemma Leads(cfg: Config, n: Node)
    requires At(n, Candidate, n.hard, []) && |cfg.peers| == 2
    ensures var l := FinishElection(cfg, n, n.hard.term, 2).0;
            && At(l, Leader, n.hard, [LogEntry(1, n.hard.term, Noop)])
            && l.next == Uniform(cfg.peers, 1) && l.matched == Uniform(cfg.peers, 0)
  {}

  lemma Submits(cfg: Config, n: Node, e: LogEntry)
    requires n.role == Leader && n.snap == None && |n.log| == 1 && n.log[0].index == 1 && |cfg.peers| == 2
    requires e.index == 2 && e.term == n.hard.term
    ensures Submit(cfg, n, e.command).0 == SaveLog(n.(log := n.log + [e]))
  {}

  predicate Filled(b: Node, to: nat) {
    && At(b, Leader, HardState(2, Some(B), 0, 0), FILL.entries)
    && b.next.Keys == b.matched.Keys == {A, C}
    && b.next[A] == 1 && b.matched[A] == 0 && b.next[C] == to + 1 && b.matched[C] == to
  }

  lemma FillSent(b: Node)
    requires Filled(b, 0)
    ensures Prepare(CFG_B, b, C, false) == (b, SendAppend(FILL))
  {
    assert b.next[C := 1] == b.next;
    assert b.log[0..2] == b.log;
  }

  lemma FillMerges()
    ensures MergeEntries([], None, FILL) == Changed(FILL.entries)
  {
    assert FirstStop([], None, FILL, 0) == 0;
    assert GoodRun(FILL.entries, 2, 2) == 2 && GoodRun(FILL.entries, 1, 1) == 2;
    assert FILL.entries[0..] == FILL.entries;
  }

  lemma FillTaken(c: Node)
    requires At(c, Follower, HardState(2, Some(B), 0, 0), [])
    ensures OnAppend(CFG_C, c, FILL).1 == Answer(FILLED) && CommitWithin(c, FILL)
  {
    FillMerges();
  }

  lemma FillCounted(b: Node)
    requires Filled(b, 0)
    ensures Filled(OnAppendReply(b, 2, C, FILLED).0, 2)
  {}

  lemma Counting(s: seq<nat>)
    requires s == [2, 0, 2]
    ensures Sorted(s) == [0, 2, 2]
  {
    assert s[1..] == [0, 2] && [0, 2][1..] == [2] && [2][1..] == [];
    assert Sorted([]) == [] && Sorted([2]) == [2] && Sorted([0, 2]) == [0, 2];
  }

  lemma Majority(b: Node)
    requires Filled(b, 2)
    ensures QuorumIndex(CFG_B, b) == 2
  {
    Counting(Replicated(CFG_B, b));
  }

  lemma Applied(cfg: Config, n: Node, e: LogEntry)
    requires n.snap == None && |n.log| == 2 && n.log[1] == e && n.hard.applied == 0 && cfg.threshold == 0
    ensures CommitTo(cfg, n, 2).1 && e in CommitTo(cfg, n, 2).0.applies
    ensures CommitTo(cfg, n, 2).0.hard == n.hard.(commit := 2, applied := 2)
    ensures var d := CommitTo(cfg, n, 2).0;
            d.log == n.log && d.snap == None && d.role == n.role && d.next == n.next
  {
    hide CommitTo, Replay;
    Committing(cfg, n, 2);
    assert n.log[0..2][1] == e && CommitTo(cfg, n, 2).0.applies[|n.applies| + 1] == e;
  }

  lemma NewCommitted(b: Node)
    requires Filled(b, 2)
    ensures NEW in AdvanceCommit(CFG_B, b, 2).0.applies
    ensures At(AdvanceCommit(CFG_B, b, 2).0, Leader, HardState(2, Some(B), 2, 2), FILL.entries)
    ensures AdvanceCommit(CFG_B, b, 2).0.next == b.next
  {
    hide CommitTo, QuorumIndex;
    Majority(b);
    Applied(CFG_B, b, NEW);
  }

  lemma BeatSent(b: Node)
    requires At(b, Leader, HardState(2, Some(B), 2, 2), FILL.entries) && A in b.next && b.next[A] == 1
    ensures Prepare(CFG_B, b, A, true) == (b, SendAppend(BEAT))
  {
    assert b.next[A := 1] == b.next;
  }

  lemma OldCommitted(a: Node)
    requires At(a, Leader, HardState(1, Some(A), 0, 0), [LogEntry(1, 1, Noop), OLD])
    ensures OLD in OnAppend(CFG_A, a, BEAT).0.applies
  {
    hide CommitTo;
    var n := Recognise(a, 2, B);
    assert FirstStop(n.log, n.snap, BEAT, 0) == 0;
    Applied(CFG_A, n, OLD);
  }

  // ------------------------------------------------------------ steps of the run

  const CFGS := map[A := CFG_A, B := CFG_B, C := CFG_C]

  predicate Where(w: World, a: Node, b: Node, c: Node) {
    w.cfgs == CFGS && w.nodes == map[A := a, B := b, C := c] && w.down == {}
  }

  ghost predicate Played(ws: seq<World>, ss: seq<Step>, a: Node, b: Node, c: Node) {
    |ws| == |ss| + 1 && Run(ws, ss) && Assured(1, ws, ss) && Where(ws[|ss|], a, b, c)
  }

  lemma ConfigsOk(v: NodeId)
    requires v in CFGS
    ensures ConfigOk(CFGS.Keys, v, CFGS[v])
  {
    assert CFG_A.peers[0] == B && CFG_A.peers[1] == C && CFG_B.peers[0] == A && CFG_B.peers[1] == C;
    assert CFG_C.peers[0] == A && CFG_C.peers[1] == B;
    assert (set p | p in CFGS[v].peers) == {A, B, C} - {v};
  }

  lemma Starts() returns (ws: seq<World>, ss: seq<Step>)
    ensures Played(ws, ss, FRESH_NODE, FRESH_NODE, FRESH_NODE)
  {
    hide FRESH_NODE, ConfigOk;
    ws, ss := [World(CFGS, map[A := FRESH_NODE, B := FRESH_NODE, C := FRESH_NODE], {}, 0, {})], [];
    ConfigsOk(A);
    ConfigsOk(B);
    ConfigsOk(C);
  }

  /** The run goes on with one step of one node. */
  lemma Plays(ws: seq<World>, ss: seq<Step>, at: NodeId, e: Event) returns (ws': seq<World>, ss': seq<Step>)
    requires |ws| == |ss| + 1 && Run(ws, ss) && Enabled(ws[|ss|], at, e)
    ensures |ws'| == |ss'| + 1 && Run(ws', ss') && ws <= ws'
    ensures Assured(1, ws, ss) && EventPremise(1, ws[|ss|].nodes[at], e) ==> Assured(1, ws', ss')
    ensures var w := ws[|ss|];
            var (n, out) := React(w.cfgs[at], w.nodes[at], e, w.calls);
            ws'[|ss'|] == w.(nodes := w.nodes[at := n], net := w.net + out, calls := w.calls + 1)
  {
    hide React, Init, EventPremise;
    var w := ws[|ss|];
    var (n, out) := React(w.cfgs[at], w.nodes[at], e, w.calls);
    ws', ss' := ws + [w.(nodes := w.nodes[at := n], net := w.net + out, calls := w.calls + 1)], ss + [Act(at, e)];
    forall i | 0 <= i < |ss'| ensures Next(ws'[i], ss'[i], ws'[i + 1]) {
      if i < |ss| { assert Next(ws[i], ss[i], ws[i + 1]); }
    }
    if Assured(1, ws, ss) && EventPremise(1, w.nodes[at], e) {
      forall i | 0 <= i < |ss'| ensures Premise(1, ws'[i], ss'[i]) {
        if i < |ss| { assert Premise(1, ws[i], ss[i]); }
      }
    }
  }

  /** C's vote carries `v`, standing in term t, to leadership. */
  lemma Elected(ws: seq<World>, ss: seq<Step>, a: Node, b: Node, c: Node, v: NodeId, t: nat)
    returns (ws': seq<World>, ss': seq<Step>)
    requires Played(ws, ss, a, b, c) && v in {A, B} && t > c.hard.term && c.snap == None && c.log == []
    requires var n := if v == A then a else b;
             n.role != Leader && n.snap == None && n.log == [] && n.hard.term == t - 1
    ensures var cfg, n := CFGS[v], if v == A then a else b;
            var l := FinishElection(cfg, StartElection(cfg, n).0, t, 2).0;
            var c' := OnVote(c, VoteRequest(t, v, 0, 0)).0;
            Played(ws', ss', if v == A then l else a, if v == B then l else b, c')
  {
    hide StartElection, OnVote, FinishElection, Run, Assured, Granted, Where;
    var cfg, n, req := CFGS[v], if v == A then a else b, VoteRequest(t, v, 0, 0);
    Stands(cfg, n);
    Grants(c, t, v);
    var ws1, ss1, id := Asks(ws, ss, a, b, c, v, req);
    var n' := StartElection(cfg, n).0;
    var ws2, ss2 := Votes(ws1, ss1, if v == A then n' else a, if v == B then n' else b, c, id, req);
    ws', ss' := Wins(ws2, ss2, if v == A then n' else a, if v == B then n' else b, OnVote(c, req).0, v, t);
  }

  lemma Wins(ws: seq<World>, ss: seq<Step>, a: Node, b: Node, c: Node, v: NodeId, t: nat)
    returns (ws': seq<World>, ss': seq<Step>)
    requires Played(ws, ss, a, b, c) && v in {A, B} && Granted(ws[|ss|].net, C, v, t)
    ensures var l := FinishElection(CFGS[v], if v == A then a else b, t, 2).0;
            Played(ws', ss', if v == A then l else a, if v == B then l else b, c)
  {
    hide FinishElection, Run, Assured, Granted, OnDelivery, StartElection, Submit, OnSend, AdvanceCommit, TriggerSnapshot;
    assert C in CFGS[v].peers && |{C}| == 1;
    ws', ss' := Plays(ws, ss, v, Finish(t, {C}));
  }

  lemma Votes(ws: seq<World>, ss: seq<Step>, a: Node, b: Node, c: Node, id: nat, req: VoteRequest)
    returns (ws': seq<World>, ss': seq<Step>)
    requires Played(ws, ss, a, b, c) && VoteAsk(id, C, req) in ws[|ss|].net
    requires OnVote(c, req).1 == VoteResponse(req.term, true)
    ensures Played(ws', ss', a, b, OnVote(c, req).0) && Granted(ws'[|ss'|].net, C, req.candidate, req.term)
  {
    hide OnVote, Run, Assured;
    ws', ss' := Plays(ws, ss, C, Deliver(VoteAsk(id, C, req)));
    assert VoteAnswer(id, C, req, VoteResponse(req.term, true)) in ws'[|ss'|].net;
  }

  lemma Asks(ws: seq<World>, ss: seq<Step>, a: Node, b: Node, c: Node, v: NodeId, req: VoteRequest)
    returns (ws': seq<World>, ss': seq<Step>, id: nat)
    requires Played(ws, ss, a, b, c) && v in {A, B}
    requires StartElection(CFGS[v], if v == A then a else b).1 == Some(req)
    ensures var n := StartElection(CFGS[v], if v == A then a else b).0;
            Played(ws', ss', if v == A then n else a, if v == B then n else b, c)
    ensures VoteAsk(id, C, req) in ws'[|ss'|].net
  {
    hide StartElection, Run, Assured;
    id := ws[|ss|].calls;
    ws', ss' := Plays(ws, ss, v, Elect);
    assert C in CFGS[v].peers && VoteAsk(id, C, req) in ws'[|ss'|].net;
  }

  function Of(a: Node, b: Node, c: Node, v: NodeId): Node {
    if v == A then a else if v == B then b else c
  }

  lemma Sent(ws: seq<World>, ss: seq<Step>, a: Node, b: Node, c: Node, from: NodeId, v: NodeId, beat: bool, req: AppendRequest)
    returns (ws': seq<World>, ss': seq<Step>, id: nat)
    requires Played(ws, ss, a, b, c) && from in {A, B} && v in {A, B, C} - {from}
    requires Prepare(CFGS[from], Of(a, b, c, from), v, beat) == (Of(a, b, c, from), SendAppend(req))
    ensures Played(ws', ss', a, b, c) && AppendAsk(id, v, req) in ws'[|ss'|].net && ws[|ss|].net <= ws'[|ss'|].net
  {
    hide Prepare, Run, Assured;
    id := ws[|ss|].calls;
    assert v in CFGS[from].peers;
    ws', ss' := Plays(ws, ss, from, Send(v, beat));
    assert AppendAsk(id, v, req) in ws'[|ss'|].net;
  }

  lemma Received(ws: seq<World>, ss: seq<Step>, a: Node, b: Node, c: Node, v: NodeId, id: nat, req: AppendRequest)
    returns (ws': seq<World>, ss': seq<Step>)
    requires Played(ws, ss, a, b, c) && v in {A, B, C} && AppendAsk(id, v, req) in ws[|ss|].net
    ensures |ws'| == |ss'| + 1 && Run(ws', ss') && ws <= ws'
    ensures var (n', r) := OnAppend(CFGS[v], Of(a, b, c, v), req);
            && Where(ws'[|ss'|], if v == A then n' else a, if v == B then n' else b, if v == C then n' else c)
            && (r.Answer? ==> AppendAnswer(id, v, req, r.value) in ws'[|ss'|].net)
            && ws[|ss|].net <= ws'[|ss'|].net
    ensures CommitWithin(Of(a, b, c, v), req) ==> Assured(1, ws', ss')
  {
    hide OnAppend, Run, Assured, CommitWithin;
    ws', ss' := Plays(ws, ss, v, Deliver(AppendAsk(id, v, req)));
  }

  /** A leads term 1 with C's vote and appends the old value. */
  lemma FirstLeader() returns (ws: seq<World>, ss: seq<Step>, a: Node, c: Node)
    ensures Played(ws, ss, a, FRESH_NODE, c)
    ensures At(a, Leader, HardState(1, Some(A), 0, 0), [LogEntry(1, 1, Noop), OLD])
    ensures At(c, Follower, HardState(1, Some(A), 0, 0), [])
  {
    hide StartElection, OnVote, FinishElection, Submit, Run, Assured, FRESH_NODE;
    FreshIsEmpty();
    var ws1, ss1 := Starts();
    var ws2, ss2 := Elected(ws1, ss1, FRESH_NODE, FRESH_NODE, FRESH_NODE, A, 1);
    Stands(CFG_A, FRESH_NODE);
    var a0 := StartElection(CFG_A, FRESH_NODE).0;
    Leads(CFG_A, a0);
    var a1 := FinishElection(CFG_A, a0, 1, 2).0;
    Grants(FRESH_NODE, 1, A);
    c := OnVote(FRESH_NODE, VoteRequest(1, A, 0, 0)).0;
    ws, ss := Plays(ws2, ss2, A, Client(OLD.command));
    Submits(CFG_A, a1, OLD);
    a := Submit(CFG_A, a1, OLD.command).0;
  }

  /** Both leaders have appended: A the old value in term 1, B the new one in term 2. */
  lemma TwoLeaders() returns (ws: seq<World>, ss: seq<Step>, a: Node, b: Node, c: Node)
    ensures Played(ws, ss, a, b, c)
    ensures At(a, Leader, HardState(1, Some(A), 0, 0), [LogEntry(1, 1, Noop), OLD])
    ensures Filled(b, 0) && At(c, Follower, HardState(2, Some(B), 0, 0), [])
  {
    hide StartElection, Run, Assured, FRESH_NODE;
    FreshIsEmpty();
    var ws1, ss1, a1, c1 := FirstLeader();
    a := a1;
    var ws2, ss2 := Plays(ws1, ss1, B, Elect);
    Stands(CFG_B, FRESH_NODE);
    var b0 := StartElection(CFG_B, FRESH_NODE).0;
    ws, ss, b, c := SecondLeader(ws2, ss2, a, b0, c1);
  }

  lemma FreshIsEmpty()
    ensures At(FRESH_NODE, Follower, HardState(0, None, 0, 0), []) && FRESH_NODE.image == map[]
  {}

  lemma SecondLeader(ws: seq<World>, ss: seq<Step>, a: Node, b: Node, c: Node)
    returns (ws': seq<World>, ss': seq<Step>, b': Node, c': Node)
    requires Played(ws, ss, a, b, c)
    requires At(b, Candidate, HardState(1, Some(B), 0, 0), []) && At(c, Follower, HardState(1, Some(A), 0, 0), [])
    ensures Played(ws', ss', a, b', c') && Filled(b', 0) && At(c', Follower, HardState(2, Some(B), 0, 0), [])
  {
    hide StartElection, OnVote, FinishElection, Submit, Run, Assured;
    var ws1, ss1 := Elected(ws, ss, a, b, c, B, 2);
    Stands(CFG_B, b);
    var b1 := StartElection(CFG_B, b).0;
    Leads(CFG_B, b1);
    var b2 := FinishElection(CFG_B, b1, 2, 2).0;
    Grants(c, 2, B);
    c' := OnVote(c, VoteRequest(2, B, 0, 0)).0;
    ws', ss' := Plays(ws1, ss1, B, Client(NEW.command));
    Submits(CFG_B, b2, NEW);
    b' := Submit(CFG_B, b2, NEW.command).0;
    assert (set p | p in CFG_B.peers) == {A, C};
  }

  /** B has replicated and committed the new value. */
  lemma NewValueCommitted() returns (ws: seq<World>, ss: seq<Step>, a: Node, b: Node, c: Node)
    ensures Played(ws, ss, a, b, c)
    ensures At(a, Leader, HardState(1, Some(A), 0, 0), [LogEntry(1, 1, Noop), OLD])
    ensures At(b, Leader, HardState(2, Some(B), 2, 2), FILL.entries) && NEW in b.applies && A in b.next && b.next[A] == 1
  {
    hide Prepare, OnAppend, OnAppendReply, AdvanceCommit, Init, Next, Filled, At, CommitWithin;
    var ws1, ss1, a1, b1, c1 := TwoLeaders();
    a := a1;
    FillSent(b1);
    FillTaken(c1);
    var ws2, ss2, id := Sent(ws1, ss1, a, b1, c1, B, C, false, FILL);
    var ws3, ss3 := Received(ws2, ss2, a, b1, c1, C, id, FILL);
    c := OnAppend(CFG_C, c1, FILL).0;
    var ws4, ss4 := Plays(ws3, ss3, B, Deliver(AppendAnswer(id, C, FILL, FILLED)));
    FillCounted(b1);
    var b2 := OnAppendReply(b1, 2, C, FILLED).0;
    ws, ss := Plays(ws4, ss4, B, Advance(2));
    NewCommitted(b2);
    b := AdvanceCommit(CFG_B, b2, 2).0;
    LeftForA(b2);
  }

  lemma LeftForA(b: Node)
    requires Filled(b, 2)
    ensures A in b.next && b.next[A] == 1
  {}

  /** State machine safety fails without its premise: B's heartbeat commits A's old value. */
  lemma UnverifiedCommit() returns (ws: seq<World>, ss: seq<Step>)
    ensures Run(ws, ss) && A in ws[|ss|].nodes && B in ws[|ss|].nodes
    ensures OLD in ws[|ss|].nodes[A].applies && NEW in ws[|ss|].nodes[B].applies
    ensures OLD.index == NEW.index && OLD != NEW
  {
    hide Prepare, OnAppend, Init, Next, At, CommitWithin;
    var ws1, ss1, a, b, c := NewValueCommitted();
    BeatSent(b);
    var ws2, ss2, id := Sent(ws1, ss1, a, b, c, B, A, true, BEAT);
    ws, ss := Received(ws2, ss2, a, b, c, A, id, BEAT);
    OldCommitted(a);
  }

  // ------------------------------------------------------------ the early report

  const REPLACE := FILL.(leaderCommit := 2)

  lemma ReplaceSent(b: Node)
    requires At(b, Leader, HardState(2, Some(B), 2, 2), FILL.entries) && A in b.next && b.next[A] == 1
    ensures Prepare(CFG_B, b, A, false) == (b, SendAppend(REPLACE))
  {
    assert b.next[A := 1] == b.next;
    assert b.log[0..2] == b.log;
  }

  lemma ReplaceMerges(log: Log)
    requires log == [LogEntry(1, 1, Noop), OLD]
    ensures MergeEntries(log, None, REPLACE) == Changed(FILL.entries)
  {
    assert FirstStop(log, None, REPLACE, 0) == 0;
    assert GoodRun(FILL.entries, 2, 2) == 2 && GoodRun(FILL.entries, 1, 1) == 2;
    assert log[..0] + FILL.entries[0..] == FILL.entries;
  }

  lemma Replaced(a: Node)
    requires At(a, Leader, HardState(1, Some(A), 0, 0), [LogEntry(1, 1, Noop), OLD])
    ensures var a' := OnAppend(CFG_A, a, REPLACE).0;
            NEW in a'.applies && a'.hard.commit == 2 && a'.hard.term == 2 && a'.role == Follower
  {
    hide CommitTo;
    ReplaceMerges(a.log);
    var n := Recognise(a, 2, B);
    Applied(CFG_A, SaveLog(n.(log := FILL.entries)), NEW);
  }

  /** With every commit verified, A still tells the client of its old value that it was committed:
      the commit index has passed the entry's index, and A no longer leads the entry's term. */
  lemma EarlyReport() returns (ws: seq<World>, ss: seq<Step>, i: nat)
    ensures Run(ws, ss) && Assured(1, ws, ss) && A in ws[|ss|].nodes
    ensures var a := ws[|ss|].nodes[A];
            && Poll(a, OLD.index, OLD.term) == Reported
            && NEW in a.applies && NEW.index == OLD.index && NEW != OLD
            && !(a.role == Leader && a.hard.term == OLD.term)
    ensures i < |ws| && A in ws[i].nodes && ws[i].nodes[A].role == Leader && OLD in ws[i].nodes[A].log
  {
    hide Prepare, OnAppend, Init, Next;
    var ws1, ss1, a, b, c := NewValueCommitted();
    ReplaceSent(b);
    var ws2, ss2, id := Sent(ws1, ss1, a, b, c, B, A, false, REPLACE);
    ws, ss := Received(ws2, ss2, a, b, c, A, id, REPLACE);
    Replaced(a);
    i := |ss2|;
    assert a.log[1] == OLD && ws[i] == ws2[i];
  }

  // ------------------------------------------------------------ the older snapshot

  const ONE := LogEntry(1, 1, Noop)
  const LATE := LogEntry(3, 1, Put([107], [1]))
  const LOST := LogEntry(4, 1, Put([107], [2]))
  const MID := LogEntry(4, 2, Noop)
  const TOP := LogEntry(5, 4, Noop)
  const EARLY: Image := map[[107] := [0]]
  const FINAL: Image := map[[107] := [1]]
  const BASE := Some(Snapshot(2, 1, EARLY))
  const TWO := AppendRequest(1, A, 0, 0, [ONE, OLD], 0)
  const TOOK_TWO := AppendResponse(1, true, 2, 0)
  const THIRD := AppendRequest(1, A, 2, 1, [LATE], 2)
  const TOOK_THREE := AppendResponse(1, true, 3, 0)
  const OVER := AppendRequest(4, B, 4, 2, [TOP], 2)
  const CLASH := AppendResponse(4, false, 0, 1)
  const OLDER := InstallRequest(4, B, 2, 1, EARLY)

  /** A leads term 1: how far it has committed, and what it knows of B. */
  predicate Leading(a: Node, commit: nat, log: Log, image: Image, ofB: nat) {
    && a.role == Leader && a.hard == HardState(1, Some(A), commit, commit) && a.log == log && a.snap == None && a.image == image
    && a.next == map[B := ofB + 1, C := 1] && a.matched == map[B := ofB, C := 0]
  }

  lemma Images()
    ensures Replay(map[], [ONE, OLD]) == EARLY && Replay(EARLY, [LATE]) == FINAL && EARLY != FINAL
  {
    assert [ONE, OLD][..1] == [ONE] && [ONE][..0] == [] && [LATE][..0] == [];
    assert Replay(map[], [ONE]) == map[];
    assert EARLY[[107]] != FINAL[[107]];
  }

  lemma Committing(cfg: Config, n: Node, k: nat)
    requires cfg.threshold == 0 && SnapIndex(n.snap) <= n.hard.applied < k <= SnapIndex(n.snap) + |n.log|
    ensures var (a, ok) := CommitTo(cfg, n, k);
            && ok && a.hard == n.hard.(commit := k, applied := k)
            && a.log == n.log && a.snap == n.snap && a.role == n.role && a.leader == n.leader
            && a.next == n.next && a.matched == n.matched
            && a.image == Replay(n.image, n.log[n.hard.applied - SnapIndex(n.snap)..k - SnapIndex(n.snap)])
            && a.applies == n.applies + n.log[n.hard.applied - SnapIndex(n.snap)..k - SnapIndex(n.snap)]
  {
    hide Replay, ApplyThrough;
    var b := n.(hard := n.hard.(commit := k));
    var c := ApplyThrough(b, k);
    AppliesSlice(b, k);
    assert ApplyCommitted(cfg, b) == (c, true);
  }

  lemma AppliesSlice(n: Node, k: nat)
    requires SnapIndex(n.snap) <= n.hard.applied < k <= SnapIndex(n.snap) + |n.log|
    ensures var es := n.log[n.hard.applied - SnapIndex(n.snap)..k - SnapIndex(n.snap)];
            ApplyThrough(n, k) == n.(image := Replay(n.image, es), applies := n.applies + es, hard := n.hard.(applied := k))
  {
    hide Replay;
  }

  // The first leader: A, in term 1.

  lemma BecomesLeading(n: Node)
    requires At(n, Candidate, HardState(1, Some(A), 0, 0), []) && n.image == map[]
    ensures Leading(FinishElection(CFG_A, n, 1, 2).0, 0, [ONE], map[], 0)
  {
    assert Uniform(CFG_A.peers, 1) == map[B := 1, C := 1] && Uniform(CFG_A.peers, 0) == map[B := 0, C := 0];
  }

  lemma SubmitsNext(a: Node, commit: nat, log: Log, image: Image, ofB: nat, e: LogEntry)
    requires Leading(a, commit, log, image, ofB) && |log| > 0
    requires e.index == log[|log| - 1].index + 1 && e.term == 1
    ensures Leading(Submit(CFG_A, a, e.command).0, commit, log + [e], image, ofB)
  {}

  lemma TwoSent(a: Node)
    requires Leading(a, 0, [ONE, OLD], map[], 0)
    ensures Prepare(CFG_A, a, B, false) == (a, SendAppend(TWO))
  {
    assert a.next[B := 1] == a.next;
    assert a.log[0..2] == a.log;
  }

  /** B has these entries of term 1 and has applied k of them. */
  predicate Following(b: Node, log: Log, k: nat, image: Image) {
    At(b, Follower, HardState(1, None, k, k), log) && b.image == image
  }

  lemma TwoMerges()
    ensures MergeEntries([], None, TWO) == Changed(TWO.entries)
  {
    assert FirstStop([], None, TWO, 0) == 0;
    assert GoodRun(TWO.entries, 2, 2) == 2 && GoodRun(TWO.entries, 1, 1) == 2;
    assert TWO.entries[0..] == TWO.entries;
  }

  lemma TwoTaken(b: Node)
    requires At(b, Follower, HardState(0, None, 0, 0), []) && b.image == map[]
    ensures OnAppend(CFG_B, b, TWO).1 == Answer(TOOK_TWO) && CommitWithin(b, TWO)
    ensures Following(OnAppend(CFG_B, b, TWO).0, [ONE, OLD], 0, map[])
  {
    hide MergeEntries;
    TwoMerges();
  }

  lemma Counted(a: Node, commit: nat, log: Log, image: Image, before: nat, resp: AppendResponse)
    requires Leading(a, commit, log, image, before) && resp.term == 1 && resp.success
    ensures Leading(OnAppendReply(a, 1, B, resp).0, commit, log, image, resp.matchIndex)
  {}

  lemma CountingBoth(s: seq<nat>, k: nat)
    requires s == [k, k, 0] && k > 0
    ensures Sorted(s) == [0, k, k]
  {
    assert s[1..] == [k, 0] && [k, 0][1..] == [0] && [0][1..] == [];
    assert Sorted([]) == [] && Sorted([0]) == [0];
    assert Insert(k, [0]) == [0] + Insert(k, []) by { assert [0][1..] == []; }
    assert Sorted([k, 0]) == [0, k];
    assert [0, k][1..] == [k];
    assert Insert(k, [0, k]) == [0] + Insert(k, [k]);
  }

  lemma BothReached(a: Node, commit: nat, log: Log, image: Image, k: nat)
    requires Leading(a, commit, log, image, k) && k > 0 && |log| > 0 && log[|log| - 1].index == k
    ensures QuorumIndex(CFG_A, a) == k
  {
    CountingBoth(Replicated(CFG_A, a), k);
  }

  lemma TwoCommitted(a: Node)
    requires Leading(a, 0, [ONE, OLD], map[], 2)
    ensures Leading(AdvanceCommit(CFG_A, a, 1).0, 2, [ONE, OLD], EARLY, 2)
  {
    hide CommitTo, Replay, QuorumIndex;
    BothReached(a, 0, [ONE, OLD], map[], 2);
    assert TermAt(a.log, a.snap, 2) == Some(1);
    hide TermAt;
    Committing(CFG_A, a, 2);
    assert a.log[0..2] == [ONE, OLD];
    Images();
  }

  lemma ThirdSent(a: Node)
    requires Leading(a, 2, [ONE, OLD, LATE], EARLY, 2)
    ensures Prepare(CFG_A, a, B, false) == (a, SendAppend(THIRD))
  {
    assert a.next[B := 3] == a.next;
    assert a.log[2..3] == [LATE];
  }

  lemma ThirdMerges()
    ensures MergeEntries([ONE, OLD], None, THIRD) == Changed([ONE, OLD, LATE])
  {
    assert FirstStop([ONE, OLD], None, THIRD, 0) == 0;
    assert GoodRun(THIRD.entries, 1, 3) == 1 && GoodRun(THIRD.entries, 0, 2) == 1;
    assert [ONE, OLD][..2] + THIRD.entries[0..] == [ONE, OLD, LATE];
  }

  lemma ThirdTaken(b: Node)
    requires Following(b, [ONE, OLD], 0, map[])
    ensures OnAppend(CFG_B, b, THIRD).1 == Answer(TOOK_THREE) && CommitWithin(b, THIRD)
    ensures Following(OnAppend(CFG_B, b, THIRD).0, [ONE, OLD, LATE], 2, EARLY)
  {
    hide CommitTo, Replay, MergeEntries;
    ThirdMerges();
    var n := SaveLog(Recognise(b, 1, A).(log := [ONE, OLD, LATE]));
    assert OnAppend(CFG_B, b, THIRD) == FollowCommit(CFG_B, n, THIRD);
    Committing(CFG_B, n, 2);
    assert n.log[0..2] == [ONE, OLD];
    Images();
  }

  lemma ThreeCommitted(a: Node)
    requires Leading(a, 2, [ONE, OLD, LATE], EARLY, 3)
    ensures Leading(AdvanceCommit(CFG_A, a, 1).0, 3, [ONE, OLD, LATE], FINAL, 3)
  {
    hide CommitTo, Replay, QuorumIndex;
    BothReached(a, 2, [ONE, OLD, LATE], EARLY, 3);
    Committing(CFG_A, a, 3);
    assert a.log[2..3] == [LATE];
    Images();
  }

  // The second leader: B, in terms 2 and 4, with a snapshot at index 2.

  predicate Behind(b: Node, role: Role, term: nat, voted: Option<NodeId>, log: Log) {
    b.role == role && b.hard == HardState(term, voted, 2, 2) && b.log == log && b.snap == BASE
  }

  lemma Pruned(b: Node)
    requires Following(b, [ONE, OLD, LATE], 2, EARLY)
    ensures Behind(TriggerSnapshot(b).0, Follower, 1, None, [LATE])
  {
    assert [ONE, OLD, LATE][2..] == [LATE];
  }

  lemma StandsAgain(b: Node, term: nat, voted: Option<NodeId>, log: Log)
    requires Behind(b, Follower, term, voted, log) && |log| > 0
    ensures var e := log[|log| - 1];
            StartElection(CFG_B, b).1 == Some(VoteRequest(term + 1, B, e.index, e.term))
    ensures Behind(StartElection(CFG_B, b).0, Candidate, term + 1, Some(B), log)
  {}

  lemma GrantsLonger(c: Node, req: VoteRequest)
    requires c.hard.term < req.term && c.snap == None && c.log == [] && req.lastTerm > 0
    ensures OnVote(c, req).1 == VoteResponse(req.term, true)
    ensures At(OnVote(c, req).0, Follower, c.hard.(term := req.term, votedFor := Some(req.candidate)), [])
  {}

  lemma LeadsAgain(b: Node, term: nat, log: Log)
    requires Behind(b, Candidate, term, Some(B), log) && |log| > 0
    ensures var l, e := FinishElection(CFG_B, b, term, 2).0, LogEntry(log[|log| - 1].index + 1, term, Noop);
            Behind(l, Leader, term, Some(B), log + [e]) && l.next == map[A := e.index, C := e.index]
  {
    var e := LogEntry(log[|log| - 1].index + 1, term, Noop);
    assert Uniform(CFG_B.peers, e.index) == map[A := e.index, C := e.index];
  }

  /** C, which has nothing, stands in term 3; B steps down for it and does not vote. */
  lemma StepsDown(b: Node)
    requires Behind(b, Leader, 2, Some(B), [LATE, MID])
    ensures Behind(OnVote(b, VoteRequest(3, C, 0, 0)).0, Follower, 3, None, [LATE, MID])
  {}

  lemma OverSent(b: Node)
    requires Behind(b, Leader, 4, Some(B), [LATE, MID, TOP]) && b.next == map[A := 5, C := 5]
    ensures Prepare(CFG_B, b, A, false) == (b, SendAppend(OVER))
  {
    assert b.next[A := 5] == b.next;
    assert b.log[2..3] == [TOP];
  }

  lemma WalksBack(log: Log)
    requires log == [ONE, OLD, LATE, LOST]
    ensures ConflictIndex(log, None, 4, 1) == 1
  {
    assert ConflictIndex(log, None, 1, 1) == 1 && ConflictIndex(log, None, 2, 1) == 1 && ConflictIndex(log, None, 3, 1) == 1;
  }

  /** A, deposed, has applied three entries and has no snapshot. */
  predicate Deposed(a: Node) {
    At(a, Follower, HardState(4, None, 3, 3), [ONE, OLD, LATE, LOST]) && a.image == FINAL
  }

  lemma OverRefused(a: Node)
    requires Leading(a, 3, [ONE, OLD, LATE, LOST], FINAL, 3)
    ensures OnAppend(CFG_A, a, OVER).1 == Answer(CLASH) && CommitWithin(a, OVER) && Deposed(OnAppend(CFG_A, a, OVER).0)
  {
    hide ConflictIndex;
    WalksBack(a.log);
  }

  lemma FallsBack(b: Node)
    requires Behind(b, Leader, 4, Some(B), [LATE, MID, TOP]) && b.next == map[A := 5, C := 5]
    ensures var l := OnAppendReply(b, 4, A, CLASH).0;
            Behind(l, Leader, 4, Some(B), [LATE, MID, TOP]) && l.next == map[A := 1, C := 5]
  {}

  lemma OlderSent(b: Node)
    requires Behind(b, Leader, 4, Some(B), [LATE, MID, TOP]) && b.next == map[A := 1, C := 5]
    ensures Prepare(CFG_B, b, A, false) == (b, SendInstall(OLDER))
  {
    assert b.next[A := 1] == b.next;
  }

  lemma OlderInstalled(a: Node)
    requires Deposed(a)
    ensures var a' := OnInstall(a, OLDER).0;
            a'.hard.applied == 3 && a'.image == EARLY && !InstallForward(a, OLDER)
  {}

  // The run.

  lemma FirstEntry() returns (ws: seq<World>, ss: seq<Step>, a: Node, c: Node)
    ensures Played(ws, ss, a, FRESH_NODE, c) && Leading(a, 0, [ONE, OLD], map[], 0)
    ensures At(c, Follower, HardState(1, Some(A), 0, 0), [])
  {
    hide StartElection, OnVote, FinishElection, Submit, Run, Assured, FRESH_NODE, Leading;
    FreshIsEmpty();
    var ws1, ss1 := Starts();
    var ws2, ss2 := Elected(ws1, ss1, FRESH_NODE, FRESH_NODE, FRESH_NODE, A, 1);
    Stands(CFG_A, FRESH_NODE);
    var a0 := StartElection(CFG_A, FRESH_NODE).0;
    BecomesLeading(a0);
    var a1 := FinishElection(CFG_A, a0, 1, 2).0;
    Grants(FRESH_NODE, 1, A);
    c := OnVote(FRESH_NODE, VoteRequest(1, A, 0, 0)).0;
    ws, ss := Plays(ws2, ss2, A, Client(OLD.command));
    SubmitsNext(a1, 0, [ONE], map[], 0, OLD);
    assert [ONE] + [OLD] == [ONE, OLD];
    a := Submit(CFG_A, a1, OLD.command).0;
  }

  /** A has committed the early value through B. */
  lemma EarlyCommitted() returns (ws: seq<World>, ss: seq<Step>, a: Node, b: Node, c: Node)
    ensures Played(ws, ss, a, b, c) && Leading(a, 2, [ONE, OLD], EARLY, 2) && Following(b, [ONE, OLD], 0, map[])
    ensures At(c, Follower, HardState(1, Some(A), 0, 0), [])
  {
    hide Prepare, OnAppend, OnAppendReply, AdvanceCommit, Init, Next, Leading, Following, At, CommitWithin, FRESH_NODE;
    var ws1, ss1, a1, c1 := FirstEntry();
    c := c1;
    FreshIsEmpty();
    TwoSent(a1);
    TwoTaken(FRESH_NODE);
    var ws2, ss2, id := Sent(ws1, ss1, a1, FRESH_NODE, c, A, B, false, TWO);
    var ws3, ss3 := Received(ws2, ss2, a1, FRESH_NODE, c, B, id, TWO);
    b := OnAppend(CFG_B, FRESH_NODE, TWO).0;
    var ws4, ss4 := Plays(ws3, ss3, A, Deliver(AppendAnswer(id, B, TWO, TOOK_TWO)));
    Counted(a1, 0, [ONE, OLD], map[], 0, TOOK_TWO);
    var a2 := OnAppendReply(a1, 1, B, TOOK_TWO).0;
    ws, ss := Plays(ws4, ss4, A, Advance(1));
    TwoCommitted(a2);
    a := AdvanceCommit(CFG_A, a2, 1).0;
  }

  /** A has committed the late value too; B has it and has applied two entries. */
  lemma LateCommitted() returns (ws: seq<World>, ss: seq<Step>, a: Node, b: Node, c: Node)
    ensures Played(ws, ss, a, b, c) && Leading(a, 3, [ONE, OLD, LATE], FINAL, 3) && Following(b, [ONE, OLD, LATE], 2, EARLY)
    ensures At(c, Follower, HardState(1, Some(A), 0, 0), [])
  {
    hide Prepare, OnAppend, OnAppendReply, AdvanceCommit, Submit, Init, Next, Leading, Following, At, CommitWithin;
    var ws0, ss0, a0, b1, c1 := EarlyCommitted();
    c := c1;
    var ws1, ss1 := Plays(ws0, ss0, A, Client(LATE.command));
    SubmitsNext(a0, 2, [ONE, OLD], EARLY, 2, LATE);
    assert [ONE, OLD] + [LATE] == [ONE, OLD, LATE];
    var a1 := Submit(CFG_A, a0, LATE.command).0;
    ThirdSent(a1);
    ThirdTaken(b1);
    var ws2, ss2, id := Sent(ws1, ss1, a1, b1, c, A, B, false, THIRD);
    var ws3, ss3 := Received(ws2, ss2, a1, b1, c, B, id, THIRD);
    b := OnAppend(CFG_B, b1, THIRD).0;
    var ws4, ss4 := Plays(ws3, ss3, A, Deliver(AppendAnswer(id, B, THIRD, TOOK_THREE)));
    Counted(a1, 2, [ONE, OLD, LATE], EARLY, 2, TOOK_THREE);
    var a2 := OnAppendReply(a1, 1, B, TOOK_THREE).0;
    ws, ss := Plays(ws4, ss4, A, Advance(1));
    ThreeCommitted(a2);
    a := AdvanceCommit(CFG_A, a2, 1).0;
  }

  /** A has one more entry, which nobody else gets; B has taken a snapshot at what it has applied. */
  lemma BothReady() returns (ws: seq<World>, ss: seq<Step>, a: Node, b: Node, c: Node)
    ensures Played(ws, ss, a, b, c) && Leading(a, 3, [ONE, OLD, LATE, LOST], FINAL, 3) && Behind(b, Follower, 1, None, [LATE])
    ensures At(c, Follower, HardState(1, Some(A), 0, 0), [])
  {
    hide Submit, TriggerSnapshot, Init, Next, Leading, Following, At, Behind;
    var ws0, ss0, a0, b0, c0 := LateCommitted();
    c := c0;
    var ws1, ss1 := Plays(ws0, ss0, A, Client(LOST.command));
    SubmitsNext(a0, 3, [ONE, OLD, LATE], FINAL, 3, LOST);
    assert [ONE, OLD, LATE] + [LOST] == [ONE, OLD, LATE, LOST];
    a := Submit(CFG_A, a0, LOST.command).0;
    ws, ss := Plays(ws1, ss1, B, Prune);
    Pruned(b0);
    b := TriggerSnapshot(b0).0;
  }

  /** C's vote makes B leader again. */
  lemma ElectedAgain(ws: seq<World>, ss: seq<Step>, a: Node, b: Node, c: Node, term: nat, voted: Option<NodeId>, log: Log)
    returns (ws': seq<World>, ss': seq<Step>, b': Node, c': Node)
    requires Played(ws, ss, a, b, c) && Behind(b, Follower, term, voted, log) && |log| > 0 && log[|log| - 1].term > 0
    requires c.hard.term <= term && c.snap == None && c.log == []
    ensures Played(ws', ss', a, b', c')
    ensures var e := LogEntry(log[|log| - 1].index + 1, term + 1, Noop);
            Behind(b', Leader, term + 1, Some(B), log + [e]) && b'.next == map[A := e.index, C := e.index]
    ensures At(c', Follower, c.hard.(term := term + 1, votedFor := Some(B)), [])
  {
    hide StartElection, OnVote, FinishElection, Run, Assured, Granted, Where, Behind, At;
    var e := log[|log| - 1];
    var req := VoteRequest(term + 1, B, e.index, e.term);
    StandsAgain(b, term, voted, log);
    GrantsLonger(c, req);
    var b1 := StartElection(CFG_B, b).0;
    var ws1, ss1, id := Asks(ws, ss, a, b, c, B, req);
    var ws2, ss2 := Votes(ws1, ss1, a, b1, c, id, req);
    c' := OnVote(c, req).0;
    LeadsAgain(b1, term + 1, log);
    ws', ss' := Wins(ws2, ss2, a, b1, c', B, term + 1);
    b' := FinishElection(CFG_B, b1, term + 1, 2).0;
  }

  /** C, which has nothing, stands in term 3, and B steps down. */
  lemma Interrupted(ws: seq<World>, ss: seq<Step>, a: Node, b: Node, c: Node)
    returns (ws': seq<World>, ss': seq<Step>, b': Node, c': Node)
    requires Played(ws, ss, a, b, c) && Behind(b, Leader, 2, Some(B), [LATE, MID]) && At(c, Follower, HardState(2, Some(B), 0, 0), [])
    ensures Played(ws', ss', a, b', c') && Behind(b', Follower, 3, None, [LATE, MID])
    ensures At(c', Candidate, HardState(3, Some(C), 0, 0), [])
  {
    hide StartElection, OnVote, Run, Assured, Behind;
    var id := ws[|ss|].calls;
    Stands(CFG_C, c);
    var ws1, ss1 := Plays(ws, ss, C, Elect);
    c' := StartElection(CFG_C, c).0;
    assert B in CFG_C.peers && VoteAsk(id, B, VoteRequest(3, C, 0, 0)) in ws1[|ss1|].net;
    ws', ss' := Plays(ws1, ss1, B, Deliver(VoteAsk(id, B, VoteRequest(3, C, 0, 0))));
    StepsDown(b);
    b' := OnVote(b, VoteRequest(3, C, 0, 0)).0;
  }

  /** B leads term 4 and knows nothing of A's log. */
  lemma LeadsTermFour() returns (ws: seq<World>, ss: seq<Step>, a: Node, b: Node, c: Node)
    ensures Played(ws, ss, a, b, c) && Leading(a, 3, [ONE, OLD, LATE, LOST], FINAL, 3)
    ensures Behind(b, Leader, 4, Some(B), [LATE, MID, TOP]) && b.next == map[A := 5, C := 5]
  {
    hide Run, Assured, Where, Leading, Behind;
    var ws0, ss0, a0, b0, c0 := BothReady();
    a := a0;
    var ws1, ss1, b1, c1 := ElectedAgain(ws0, ss0, a, b0, c0, 1, None, [LATE]);
    assert [LATE] + [MID] == [LATE, MID];
    var ws2, ss2, b2, c2 := Interrupted(ws1, ss1, a, b1, c1);
    ws, ss, b, c := ElectedAgain(ws2, ss2, a, b2, c2, 3, None, [LATE, MID]);
    assert [LATE, MID] + [TOP] == [LATE, MID, TOP];
  }

  lemma SentInstall(ws: seq<World>, ss: seq<Step>, a: Node, b: Node, c: Node, req: InstallRequest)
    returns (ws': seq<World>, ss': seq<Step>, id: nat)
    requires Played(ws, ss, a, b, c) && Prepare(CFG_B, b, A, false) == (b, SendInstall(req))
    ensures Played(ws', ss', a, b, c) && InstallAsk(id, A, req) in ws'[|ss'|].net && ws <= ws'
  {
    hide Prepare, Run, Assured;
    id := ws[|ss|].calls;
    ws', ss' := Plays(ws, ss, B, Send(A, false));
    assert InstallAsk(id, A, req) in ws'[|ss'|].net;
  }

  /** B's first request finds another term at A's last entry, and A's answer takes B below its snapshot. */
  lemma FallenBack() returns (ws: seq<World>, ss: seq<Step>, a: Node, b: Node, c: Node)
    ensures Played(ws, ss, a, b, c) && Deposed(a)
    ensures Behind(b, Leader, 4, Some(B), [LATE, MID, TOP]) && b.next == map[A := 1, C := 5]
  {
    hide Prepare, OnAppend, OnAppendReply, Init, Next, Leading, Behind, Deposed, CommitWithin;
    var ws0, ss0, a0, b0, c0 := LeadsTermFour();
    c := c0;
    OverSent(b0);
    OverRefused(a0);
    var ws1, ss1, id := Sent(ws0, ss0, a0, b0, c, B, A, false, OVER);
    var ws2, ss2 := Received(ws1, ss1, a0, b0, c, A, id, OVER);
    a := OnAppend(CFG_A, a0, OVER).0;
    ws, ss := Plays(ws2, ss2, B, Deliver(AppendAnswer(id, A, OVER, CLASH)));
    FallsBack(b0);
    b := OnAppendReply(b0, 4, A, CLASH).0;
  }

  /** Images agree only with their premise: with every commit verified, A has applied three entries at
      state i and still claims so at the end, after B's snapshot has taken its image back. */
  lemma InstallGoesBack() returns (ws: seq<World>, ss: seq<Step>, i: nat)
    ensures Run(ws, ss) && Assured(1, ws, ss) && i < |ss| && A in ws[i].nodes && A in ws[|ss|].nodes
    ensures ws[i].nodes[A].hard.applied == ws[|ss|].nodes[A].hard.applied
    ensures ws[i].nodes[A].image != ws[|ss|].nodes[A].image
  {
    hide OnInstall, Prepare, Init, Next, Behind;
    var ws0, ss0, a, b, c := FallenBack();
    OlderSent(b);
    var ws1, ss1, id := SentInstall(ws0, ss0, a, b, c, OLDER);
    i := |ss1|;
    ws, ss := Plays(ws1, ss1, A, Deliver(InstallAsk(id, A, OLDER)));
    OlderInstalled(a);
    Images();
    assert ws[i] == ws1[i];
  }
}
