/** What holds of every run of the cluster, whatever is lost, repeated, delayed or restarted. */
module RaftSafety {
  import opened Basics
  import opened RaftTypes
  import opened RaftNode
  import opened RaftCore
  import opened RaftCommit
  import opened RaftView
  import opened RaftPhases
  import opened RaftCluster
  import opened RaftRegions

  // ------------------------------------------------------- the history of a run

  const FRESH_MEMBER := Member(0, Follower, None, [], 0)

  ghost function FreshMembers(s: set<NodeId>): (m: map<NodeId, Member>)
    ensures m.Keys == s && forall v :: v in m ==> m[v] == FRESH_MEMBER
  {
    if s == {} then map[] else
      var v :| v in s;
      FreshMembers(s - {v})[v := FRESH_MEMBER]
  }

  ghost function FreshCore(s: set<NodeId>): Core {
    Core(s, FreshMembers(s), map[], map[], map[], map[], map[])
  }

  lemma FreshCoreOk(tier: nat, s: set<NodeId>)
    ensures CoreOk(tier, FreshCore(s))
  {
    var c := FreshCore(s);
    assert forall n :: n in c.members ==> RoleOk(c, n) && VotedOk(c, n) && MemberCommitOk(c, n);
  }

  lemma FreshNodeOk(tier: nat, s: set<NodeId>, v: NodeId)
    requires v in s
    ensures NodeOk(tier, FreshCore(s), v, FRESH_NODE)
  {
    hide CoreOk;
    assert FRESH_NODE == SaveHard(Node(HardState(0, None, 0, 0), [], None, Follower, None, map[], map[], map[], [Write(EMPTY_DISK, 0)], []));
  }

  lemma InitInv(tier: nat, w: World)
    requires Init(w)
    ensures Inv(tier, w, FreshCore(w.nodes.Keys))
  {
    hide CoreOk, NodeOk, ConfigOk, FRESH_NODE;
    FreshCoreOk(tier, w.nodes.Keys);
    forall v | v in w.nodes ensures NodeOk(tier, FreshCore(w.nodes.Keys), v, w.nodes[v]) {
      FreshNodeOk(tier, w.nodes.Keys, v);
    }
  }

  /** One history per state, each extending the earlier ones. */
  ghost predicate HistoryOf(tier: nat, ws: seq<World>, cs: seq<Core>) {
    && |cs| == |ws|
    && (forall i :: 0 <= i < |ws| ==> Inv(tier, ws[i], cs[i]))
    && (forall i, j :: 0 <= i < j < |ws| ==> Grows(cs[i], cs[j]))
  }

  lemma {:induction false} History(tier: nat, ws: seq<World>, ss: seq<Step>) returns (cs: seq<Core>)
    requires Run(ws, ss) && Assured(tier, ws, ss)
    ensures HistoryOf(tier, ws, cs)
    decreases |ss|
  {
    hide Inv, Init, Next, Premise, Grows;
    if |ss| == 0 {
      InitInv(tier, ws[0]);
      cs := [FreshCore(ws[0].nodes.Keys)];
    } else {
      var k := |ss| - 1;
      var before := History(tier, ws[..k + 1], ss[..k]);
      var d := NextKeeps(tier, ws[k], ss[k], ws[k + 1], before[k]);
      cs := before + [d];
      forall i, j | 0 <= i < j < |ws| ensures Grows(cs[i], cs[j]) {
        if j == k + 1 && i < k { GrowsTransitive(cs[i], cs[k], d); }
      }
      forall i | 0 <= i < |ws| ensures Inv(tier, ws[i], cs[i]) {
        if i <= k { assert ws[..k + 1][i] == ws[i]; }
      }
    }
  }

  lemma Unassured(ws: seq<World>, ss: seq<Step>)
    requires Run(ws, ss)
    ensures Assured(0, ws, ss)
  {
    hide Next, Init;
  }

  lemma GrowsSelf(c: Core)
    requires Base(c)
    ensures Grows(c, c)
  {}

  /** The later of two histories of one run extends both. */
  lemma Later(tier: nat, ws: seq<World>, cs: seq<Core>, i: nat, j: nat) returns (k: nat)
    requires HistoryOf(tier, ws, cs) && i < |ws| && j < |ws|
    ensures k < |ws| && Grows(cs[i], cs[k]) && Grows(cs[j], cs[k])
    ensures Inv(tier, ws[k], cs[k])
  {
    hide Grows, Base;
    assert Inv(tier, ws[i], cs[i]) && Inv(tier, ws[j], cs[j]);
    GrowsSelf(cs[i]);
    GrowsSelf(cs[j]);
    k := if i <= j then j else i;
  }

  // ------------------------------------------------------------ election safety

  lemma LeaderRecorded(tier: nat, w: World, c: Core, a: NodeId)
    requires Inv(tier, w, c) && a in w.nodes && w.nodes[a].role == Leader
    ensures w.nodes[a].hard.term in c.leaders && c.leaders[w.nodes[a].hard.term] == a
  {
    assert NodeOk(tier, c, a, w.nodes[a]);
    assert RoleOk(c, a);
  }

  /** Over every run, restarts and crashes included, a term has at most one leader. */
  lemma ElectionSafety(ws: seq<World>, ss: seq<Step>, i: nat, j: nat, a: NodeId, b: NodeId)
    requires Run(ws, ss) && i < |ws| && j < |ws| && a in ws[i].nodes && b in ws[j].nodes
    requires ws[i].nodes[a].role == Leader && ws[j].nodes[b].role == Leader
    requires ws[i].nodes[a].hard.term == ws[j].nodes[b].hard.term
    ensures a == b
  {
    hide Run, Inv;
    Unassured(ws, ss);
    var cs := History(0, ws, ss);
    LeaderRecorded(0, ws[i], cs[i], a);
    LeaderRecorded(0, ws[j], cs[j], b);
    var k := Later(0, ws, cs, i, j);
  }

  // --------------------------------------------------------------- log matching

  /** The entry a node retains at index x. */
  function EntryAt(n: Node, x: nat): LogEntry
    requires SnapIndex(n.snap) < x <= SnapIndex(n.snap) + |n.log|
  {
    n.log[x - SnapIndex(n.snap) - 1]
  }

  predicate Retains(n: Node, x: nat) {
    SnapIndex(n.snap) < x <= SnapIndex(n.snap) + |n.log|
  }

  ghost predicate Shows(n: Node, full: Log) {
    forall x: nat :: Retains(n, x) ==> x <= |full| && EntryAt(n, x) == full[x - 1]
  }

  lemma NodeView(tier: nat, w: World, c: Core, a: NodeId)
    requires Inv(tier, w, c) && a in w.nodes
    ensures a in c.members && NodeShape(w.nodes[a], c.members[a]) && Numbered(c.members[a].log)
    ensures LogOk(c, c.members[a].log, c.members[a].term)
    ensures Shows(w.nodes[a], c.members[a].log)
  {
    hide VotesOk, LeadersOk, RolesOk, Safe, Shows, Holds, ConfigOk, MsgOk;
    assert NodeOk(tier, c, a, w.nodes[a]);
    LogOkNumbered(c, c.members[a].log, c.members[a].term);
    ShowsAll(w.nodes[a], c.members[a].log);
  }

  lemma ShowsAll(n: Node, full: Log)
    requires Holds(n.log, n.snap, full)
    ensures Shows(n, full)
  {}

  /** Two nodes, at any two moments, that hold the same term at index x agree on x and on every
      earlier entry both retain. */
  lemma LogMatching(ws: seq<World>, ss: seq<Step>, i: nat, j: nat, a: NodeId, b: NodeId, x: nat, y: nat)
    requires Run(ws, ss) && i < |ws| && j < |ws| && a in ws[i].nodes && b in ws[j].nodes
    requires x > 0 && TermAt(ws[i].nodes[a].log, ws[i].nodes[a].snap, x).Some?
    requires TermAt(ws[i].nodes[a].log, ws[i].nodes[a].snap, x) == TermAt(ws[j].nodes[b].log, ws[j].nodes[b].snap, x)
    requires y <= x && Retains(ws[i].nodes[a], y) && Retains(ws[j].nodes[b], y)
    ensures EntryAt(ws[i].nodes[a], y) == EntryAt(ws[j].nodes[b], y)
  {
    hide Run, Inv, TermAt, Holds, LogOk;
    Unassured(ws, ss);
    var cs := History(0, ws, ss);
    var k := Later(0, ws, cs, i, j);
    NodeView(0, ws[i], cs[i], a);
    NodeView(0, ws[j], cs[j], b);
    var n, m, f, g := ws[i].nodes[a], ws[j].nodes[b], cs[i].members[a], cs[j].members[b];
    ViewTerm(n.log, n.snap, f.log, x);
    ViewTerm(m.log, m.snap, g.log, x);
    LogOkGrows(cs[i], cs[k], f.log, f.term, f.term);
    LogOkGrows(cs[j], cs[k], g.log, g.term, g.term);
    SameTermSamePrefix(cs[k], f.log, g.log, f.term, g.term, x - 1);
    assert f.log[..x][y - 1] == g.log[..x][y - 1];
  }

  // ------------------------------------------------------- state machine safety

  lemma CountedEqual(c: Core, x: LogEntry, y: LogEntry)
    requires Safe(c) && AppliedOk(c, x) && AppliedOk(c, y) && x.index == y.index
    ensures x == y
  {
    hide Quorum, Ackers, Inherited;
    var t: nat, k: nat :| ChosenIn(c, t, k, x);
    var u: nat, l: nat :| ChosenIn(c, u, l, y);
    if t <= u { ChosenAgree(c, t, k, u, x.index); } else { ChosenAgree(c, u, l, t, x.index); }
  }

  /** The leader of the same or a later term has every chosen entry at its place. */
  lemma ChosenAgree(c: Core, t: nat, k: nat, u: nat, i: nat)
    requires Safe(c) && Own(c, t, k) && Quorum(c, Ackers(c, t, k)) && t <= u && u in c.logs && 1 <= i <= k
    ensures i <= |c.logs[u]| && c.logs[t][i - 1] == c.logs[u][i - 1]
  {
    if t < u {
      SubsetSize(Ackers(c, t, k), Able(c, t, k));
      assert Inherited(c, t, u, k);
      assert c.logs[t][..k][i - 1] == c.logs[u][i - 1];
    }
  }

  lemma NodeApplies(w: World, c: Core, a: NodeId)
    requires Inv(1, w, c) && a in w.nodes
    ensures a in c.members && SettledOk(c, a, w.nodes[a].applies) && AppliesOk(c, w.nodes[a].applies)
  {
    hide Base, SettledOk, HandedOk, AppliesOk;
    assert NodeOk(1, c, a, w.nodes[a]);
    SettledHanded(c, a, w.nodes[a].applies);
    HandedChosen(c, a, w.nodes[a].applies);
  }

  /** No two nodes ever apply different entries at one index. */
  lemma StateMachineSafety(ws: seq<World>, ss: seq<Step>, i: nat, j: nat, a: NodeId, b: NodeId, x: LogEntry, y: LogEntry)
    requires Run(ws, ss) && Assured(1, ws, ss)
    requires i < |ws| && j < |ws| && a in ws[i].nodes && b in ws[j].nodes
    requires x in ws[i].nodes[a].applies && y in ws[j].nodes[b].applies && x.index == y.index
    ensures x == y
  {
    hide Run, Grows, Base, Safe, AppliedOk;
    var cs := History(1, ws, ss);
    var k := Later(1, ws, cs, i, j);
    NodeApplies(ws[i], cs[i], a);
    NodeApplies(ws[j], cs[j], b);
    AppliesGrow(cs[i], cs[k], ws[i].nodes[a].applies);
    AppliesGrow(cs[j], cs[k], ws[j].nodes[b].applies);
    CountedEqual(cs[k], x, y);
  }

  // -------------------------------------------------------- leader completeness

  lemma LeaderView(tier: nat, w: World, c: Core, b: NodeId)
    requires Inv(tier, w, c) && b in w.nodes && w.nodes[b].role == Leader
    ensures b in c.members && w.nodes[b].hard.term in c.logs && c.logs[w.nodes[b].hard.term] == c.members[b].log
  {
    assert NodeOk(tier, c, b, w.nodes[b]);
    assert RoleOk(c, b);
  }

  lemma CommittedView(w: World, c: Core, a: NodeId)
    requires Inv(1, w, c) && a in w.nodes
    ensures var n := w.nodes[a];
            && a in c.members && n.hard.commit <= |c.members[a].log|
            && Committed(c, n.hard.term, c.members[a].log[..n.hard.commit])
            && SnapIndex(n.snap) <= n.hard.applied == n.hard.commit
  {
    assert NodeOk(1, c, a, w.nodes[a]);
    CommitFacts(c, a);
  }

  /** When leader b's log must hold what node a has committed: b leads a later term, at whatever moment,
      or the same term and no earlier. */
  predicate LeadsPast(ws: seq<World>, i: nat, a: NodeId, j: nat, b: NodeId)
    requires i < |ws| && j < |ws| && a in ws[i].nodes && b in ws[j].nodes
  {
    var t, u := ws[i].nodes[a].hard.term, ws[j].nodes[b].hard.term;
    ws[j].nodes[b].role == Leader && (t < u || (t == u && i <= j))
  }

  lemma LeaderHolds(ws: seq<World>, cs: seq<Core>, i: nat, j: nat, a: NodeId, b: NodeId)
    requires HistoryOf(1, ws, cs) && i < |ws| && j < |ws| && a in ws[i].nodes && b in ws[j].nodes && LeadsPast(ws, i, a, j, b)
    ensures a in cs[i].members && b in cs[j].members
    ensures var n := ws[i].nodes[a];
            n.hard.commit <= |cs[i].members[a].log| && cs[i].members[a].log[..n.hard.commit] <= cs[j].members[b].log
  {
    hide Base, Grows, Inv, Safe, Committed;
    var n, u := ws[i].nodes[a], ws[j].nodes[b].hard.term;
    CommittedView(ws[i], cs[i], a);
    LeaderView(1, ws[j], cs[j], b);
    var p := cs[i].members[a].log[..n.hard.commit];
    InvSafe(ws[i], cs[i]);
    InvSafe(ws[j], cs[j]);
    if i <= j {
      if i < j { CommittedGrows(cs[i], cs[j], n.hard.term, u, p); } else { CommittedLater(cs[j], n.hard.term, u, p); }
      SafeParts(cs[j]);
      CommittedInLeader(cs[j], u, p, u);
    } else {
      CommittedInEarlierView(cs[j], cs[i], n.hard.term, p, u);
    }
  }

  lemma SafeParts(c: Core)
    requires Safe(c)
    ensures InheritedAll(c) && LeaderCommitsOk(c)
  {
    hide Base;
  }

  lemma InvSafe(w: World, c: Core)
    requires Inv(1, w, c)
    ensures Safe(c) && Base(c)
  {}

  lemma CommittedLater(c: Core, t: nat, u: nat, p: Log)
    requires Committed(c, t, p) && t <= u
    ensures Committed(c, u, p)
  {}

  /** Leader completeness: every entry committed at a node is in the log of every leader of a later
      term, even one seen before the commit was counted, and of every later leader of the same term,
      at its place or inside its snapshot. */
  lemma LeaderCompleteness(ws: seq<World>, ss: seq<Step>, i: nat, j: nat, a: NodeId, b: NodeId, x: nat)
    requires Run(ws, ss) && Assured(1, ws, ss) && i < |ws| && j < |ws| && a in ws[i].nodes && b in ws[j].nodes
    requires LeadsPast(ws, i, a, j, b)
    requires 1 <= x <= ws[i].nodes[a].hard.commit
    ensures x <= LastIndex(ws[j].nodes[b].log, ws[j].nodes[b].snap)
    ensures Retains(ws[i].nodes[a], x) && Retains(ws[j].nodes[b], x) ==> EntryAt(ws[i].nodes[a], x) == EntryAt(ws[j].nodes[b], x)
  {
    hide Run, Inv, Grows, Base, Holds;
    var cs := History(1, ws, ss);
    LeaderHolds(ws, cs, i, j, a, b);
    NodeView(1, ws[i], cs[i], a);
    NodeView(1, ws[j], cs[j], b);
    var n, m, f, g := ws[i].nodes[a], ws[j].nodes[b], cs[i].members[a].log, cs[j].members[b].log;
    ViewLast(m.log, m.snap, g);
    assert f[..n.hard.commit][x - 1] == g[x - 1];
  }

  /** A submit that polls Committed at a node that holds its entry is never lost: whatever any node
      ever applies at that index is that entry. */
  lemma AcknowledgedIsFinal(ws: seq<World>, ss: seq<Step>, i: nat, j: nat, a: NodeId, b: NodeId, e: LogEntry, y: LogEntry)
    requires Run(ws, ss) && Assured(1, ws, ss) && i < |ws| && j < |ws| && a in ws[i].nodes && b in ws[j].nodes
    requires Poll(ws[i].nodes[a], e.index, e.term) == Reported && Retains(ws[i].nodes[a], e.index)
    requires EntryAt(ws[i].nodes[a], e.index) == e
    requires y in ws[j].nodes[b].applies && y.index == e.index
    ensures y == e
  {
    hide Run, Grows, Base, Safe, AppliedOk;
    var cs := History(1, ws, ss);
    HeldIsCounted(ws[i], cs[i], a, e);
    ChosenIsApplied(ws, cs, i, j, b, e, y);
  }

  /** The same from the moment of submission: the node appended e while leading e's term, and polls
      Committed while leading that term still; nothing need be retained any more. */
  lemma AcknowledgedWhileLeading(ws: seq<World>, ss: seq<Step>, h: nat, i: nat, j: nat, a: NodeId, b: NodeId, e: LogEntry, y: LogEntry)
    requires Run(ws, ss) && Assured(1, ws, ss) && h <= i < |ws| && j < |ws|
    requires a in ws[h].nodes && a in ws[i].nodes && b in ws[j].nodes
    requires ws[h].nodes[a].role == Leader && ws[h].nodes[a].hard.term == e.term
    requires Retains(ws[h].nodes[a], e.index) && EntryAt(ws[h].nodes[a], e.index) == e
    requires ws[i].nodes[a].role == Leader && ws[i].nodes[a].hard.term == e.term
    requires Poll(ws[i].nodes[a], e.index, e.term) == Reported
    requires y in ws[j].nodes[b].applies && y.index == e.index
    ensures y == e
  {
    hide Run, Grows, Base, Safe, AppliedOk, Inv;
    var cs := History(1, ws, ss);
    NodeView(1, ws[h], cs[h], a);
    LeaderView(1, ws[h], cs[h], a);
    LeaderView(1, ws[i], cs[i], a);
    var g := Later(1, ws, cs, h, i);
    LeaderKeepsEntry(cs[h], cs[i], h < i, e.term, e.index);
    CommittedEntry(ws[i], cs[i], a, e.index);
    ChosenIsApplied(ws, cs, i, j, b, e, y);
  }

  /** A submit answered Done, which only a group of one does: the entry is in the state machine when the
      answer is given, and whatever any node ever applies at its index is that entry. */
  lemma DoneIsFinal(ws: seq<World>, ss: seq<Step>, i: nat, j: nat, a: NodeId, command: Command, x: nat, t: nat, b: NodeId, y: LogEntry)
    requires Run(ws, ss) && Assured(1, ws, ss) && i < |ss| && j < |ws| && b in ws[j].nodes
    requires ss[i] == Act(a, Client(command)) && a in ws[i].nodes && a in ws[i].cfgs
    requires Submit(ws[i].cfgs[a], ws[i].nodes[a], command).1 == Done(x, t)
    requires y in ws[j].nodes[b].applies && y.index == x
    ensures a in ws[i + 1].nodes && LogEntry(x, t, command) in ws[i + 1].nodes[a].applies
    ensures y == LogEntry(x, t, command)
  {
    hide Run, Inv, Submit, Holds, Numbered, Committed;
    var cs := History(1, ws, ss);
    NodeView(1, ws[i], cs[i], a);
    CommittedView(ws[i], cs[i], a);
    DoneHandsOver(ws[i].cfgs[a], ws[i].nodes[a], command, cs[i].members[a].log);
    ClientStep(ws, ss, i, a, command);
    StateMachineSafety(ws, ss, i + 1, j, a, b, LogEntry(x, t, command), y);
  }

  lemma ClientStep(ws: seq<World>, ss: seq<Step>, i: nat, a: NodeId, command: Command)
    requires Run(ws, ss) && i < |ss| && ss[i] == Act(a, Client(command)) && a in ws[i].nodes && a in ws[i].cfgs
    ensures a in ws[i + 1].nodes && ws[i + 1].nodes[a] == Submit(ws[i].cfgs[a], ws[i].nodes[a], command).0
  {
    hide Submit, Init;
    assert Next(ws[i], ss[i], ws[i + 1]);
  }

  /** In every run in which nothing older is installed and followers commit what they verified, every
      node rests between its steps; so what is said of regions holds of every step of such a run. */
  lemma RestsInRun(ws: seq<World>, ss: seq<Step>, i: nat, a: NodeId) returns (full: Log)
    requires Run(ws, ss) && Assured(2, ws, ss) && i < |ws| && a in ws[i].nodes
    ensures Rests(ws[i].nodes[a], full) && (ws[i].nodes[a].role != Follower ==> ws[i].nodes[a].hard.term > 0)
  {
    hide Run, Inv, Replay, Holds, Numbered;
    var cs := History(2, ws, ss);
    full := InvRests(ws[i], cs[i], a);
  }

  /** An append or snapshot request in such a run is what a leader of its term sent: it carries a piece of,
      or covers a prefix of, a log l that matches the node's and, unless the node is past that term, has
      what the node committed. So AppendExact and InstallForwards say what every delivery does. */
  lemma RequestsInRun(ws: seq<World>, ss: seq<Step>, i: nat, a: NodeId, m: Msg) returns (full: Log, l: Log)
    requires Run(ws, ss) && Assured(2, ws, ss) && i < |ws| && a in ws[i].nodes && m in ws[i].net && (m.AppendAsk? || m.InstallAsk?)
    ensures var n := ws[i].nodes[a];
            && Rests(n, full) && Numbered(l) && Matching(full, l)
            && (m.AppendAsk? ==> Carries(m.append, l) && (m.append.term >= n.hard.term ==> CommitAgrees(n, full, l)))
            && (m.InstallAsk? ==> Depicts(m.install, l) && m.install.image == Replay(map[], l[..m.install.lastIndex])
                                  && (m.install.term >= n.hard.term ==> CommitAgrees(n, full, l)))
  {
    hide Run, Inv, Replay, Rests, Carries, Matching, Numbered, CommitAgrees;
    var cs := History(2, ws, ss);
    full := InvRests(ws[i], cs[i], a);
    var t := if m.AppendAsk? then m.append.term else m.install.term;
    l := RequestLog(ws[i], cs[i], m, t);
    LogsMatch(ws[i], cs[i], a, full, t);
    if t >= ws[i].nodes[a].hard.term { CommitInLog(ws[i], cs[i], a, full, t); }
  }

  lemma RequestLog(w: World, c: Core, m: Msg, t: nat) returns (l: Log)
    requires Inv(2, w, c) && m in w.net && (m.AppendAsk? || m.InstallAsk?) && t == if m.AppendAsk? then m.append.term else m.install.term
    ensures t in c.logs && l == c.logs[t]
    ensures m.AppendAsk? ==> Carries(m.append, l)
    ensures m.InstallAsk? ==> Depicts(m.install, l) && m.install.image == Replay(map[], l[..m.install.lastIndex])
  {
    hide CoreOk, NodeOk, ConfigOk, Replay, Carries;
    assert MsgOk(2, c, m);
    l := c.logs[t];
  }

  lemma LogsMatch(w: World, c: Core, a: NodeId, full: Log, t: nat)
    requires Inv(2, w, c) && a in w.nodes && t in c.logs && a in c.members && full == c.members[a].log
    ensures Numbered(c.logs[t]) && Matching(full, c.logs[t])
  {
    hide Safe, MsgOk, ConfigOk, NodeOk, LogOk, Matching, Numbered;
    assert LogOk(c, c.logs[t], t) && LogOk(c, full, c.members[a].term);
    LogOkNumbered(c, c.logs[t], t);
    MatchingLogs(c, full, c.members[a].term, c.logs[t], t);
  }

  lemma CommitInLog(w: World, c: Core, a: NodeId, full: Log, t: nat)
    requires Inv(2, w, c) && a in w.nodes && t in c.logs && w.nodes[a].hard.term <= t && a in c.members && full == c.members[a].log
    ensures CommitAgrees(w.nodes[a], full, c.logs[t])
  {
    hide Inv, Safe, Base, Committed;
    Tier1(w, c);
    CommittedView(w, c, a);
    var p := full[..w.nodes[a].hard.commit];
    CommittedLater(c, w.nodes[a].hard.term, t, p);
    InvSafe(w, c);
    SafeParts(c);
    CommittedInLeader(c, t, p, t);
  }

  lemma InvRests(w: World, c: Core, a: NodeId) returns (full: Log)
    requires Inv(2, w, c) && a in w.nodes
    ensures Rests(w.nodes[a], full) && (w.nodes[a].role != Follower ==> w.nodes[a].hard.term > 0)
    ensures a in c.members && full == c.members[a].log
  {
    hide Replay, Committed, Inv, Holds, Numbered;
    Tier1(w, c);
    NodeView(2, w, c, a);
    CommittedView(w, c, a);
    OnDiskView(w, c, a);
    full := c.members[a].log;
  }

  lemma OnDiskView(w: World, c: Core, a: NodeId)
    requires Inv(2, w, c) && a in w.nodes
    ensures a in c.members && Stored(w.nodes[a]).hard == w.nodes[a].hard && NodeImage(w.nodes[a], c.members[a].log)
    ensures w.nodes[a].role != Follower ==> w.nodes[a].hard.term > 0
  {
    hide Safe, Base, MsgOk, ConfigOk, Holds, Replay;
    assert NodeOk(2, c, a, w.nodes[a]);
    if w.nodes[a].role != Follower { ActiveTerm(c, a); }
  }

  lemma ActiveTerm(c: Core, a: NodeId)
    requires Base(c) && a in c.members && c.members[a].role != Follower
    ensures c.members[a].term > 0
  {
    assert RoleOk(c, a);
    if c.members[a].role == Leader { assert LeaderOk(c, c.members[a].term); }
  }

  lemma LeaderKeepsEntry(c: Core, d: Core, later: bool, t: nat, x: nat)
    requires t in c.logs && t in d.logs && 1 <= x <= |c.logs[t]|
    requires if later then Grows(c, d) else c == d
    ensures x <= |d.logs[t]| && d.logs[t][x - 1] == c.logs[t][x - 1]
  {
    assert c.logs[t] <= d.logs[t];
  }

  lemma HeldIsCounted(w: World, c: Core, a: NodeId, e: LogEntry)
    requires Inv(1, w, c) && a in w.nodes && Retains(w.nodes[a], e.index) && EntryAt(w.nodes[a], e.index) == e
    requires e.index <= w.nodes[a].hard.commit
    ensures AppliedOk(c, e)
  {
    hide Inv, AppliedOk, Holds;
    NodeView(1, w, c, a);
    CommittedEntry(w, c, a, e.index);
  }

  /** Whatever lies at or below a node's commit index in its complete log was chosen. */
  lemma CommittedEntry(w: World, c: Core, a: NodeId, x: nat)
    requires Inv(1, w, c) && a in w.nodes && 1 <= x <= w.nodes[a].hard.commit
    ensures a in c.members && x <= |c.members[a].log| && c.members[a].log[x - 1].index == x
    ensures AppliedOk(c, c.members[a].log[x - 1])
  {
    hide AppliedOk, Holds, CoreOk, NetOk, ConfigOk, Numbered;
    CommittedView(w, c, a);
    NodeView(1, w, c, a);
    var l, k := c.members[a].log, w.nodes[a].hard.commit;
    assert l[..k][x - 1] == l[x - 1];
    CountsOk(w, c);
    NumberedPrefix(l, k);
    PrefixApplied(c, w.nodes[a].hard.term, l[..k], [l[x - 1]]);
    NumberedIndex(l, x);
  }

  lemma NumberedIndex(l: Log, x: nat)
    requires Numbered(l) && 1 <= x <= |l|
    ensures l[x - 1].index == x
  {}

  lemma CountsOk(w: World, c: Core)
    requires Inv(1, w, c)
    ensures LeaderCommitsOk(c)
  {
    hide Base;
  }

  /** What the report of a submit is worth, exactly. The node appended e while leading e's term; once
      its commit index has passed e's index, some entry f is what any node ever applies there. The
      report is right, f is e, if and only if f has e's term, and f's term is the one the node's log
      has at that index for as long as the node has not pruned it. */
  lemma ReportIsRight(ws: seq<World>, ss: seq<Step>, h: nat, i: nat, a: NodeId, e: LogEntry) returns (f: LogEntry)
    requires Run(ws, ss) && Assured(1, ws, ss) && h <= i < |ws| && a in ws[h].nodes && a in ws[i].nodes
    requires ws[h].nodes[a].role == Leader && ws[h].nodes[a].hard.term == e.term
    requires Retains(ws[h].nodes[a], e.index) && EntryAt(ws[h].nodes[a], e.index) == e
    requires Poll(ws[i].nodes[a], e.index, e.term) == Reported
    ensures forall j, b, y :: 0 <= j < |ws| && b in ws[j].nodes && y in ws[j].nodes[b].applies && y.index == e.index ==> y == f
    ensures f == e <==> f.term == e.term
    ensures var n := ws[i].nodes[a];
            SnapIndex(n.snap) <= e.index ==> TermAt(n.log, n.snap, e.index) == Some(f.term)
  {
    hide Run, Inv, AppliedOk, Holds, LogOk, TermAt, Safe, Base, Grows;
    var cs := History(1, ws, ss);
    NodeView(1, ws[h], cs[h], a);
    LeaderView(1, ws[h], cs[h], a);
    if h < i { LogsKeptBy(cs[h], cs[i], e.term); }
    LeaderKeepsEntry(cs[h], cs[i], h < i, e.term, e.index);
    CommittedEntry(ws[i], cs[i], a, e.index);
    NodeView(1, ws[i], cs[i], a);
    InvSafe(ws[i], cs[i]);
    var n, l := ws[i].nodes[a], cs[i].members[a].log;
    f := l[e.index - 1];
    ViewTerm(n.log, n.snap, l, e.index);
    if f.term == e.term { LeaderEntry(cs[i], a, e); }
    forall j, b, y | 0 <= j < |ws| && b in ws[j].nodes && y in ws[j].nodes[b].applies && y.index == e.index ensures y == f {
      ChosenIsApplied(ws, cs, i, j, b, f, y);
    }
  }

  lemma ChosenIsApplied(ws: seq<World>, cs: seq<Core>, i: nat, j: nat, b: NodeId, f: LogEntry, y: LogEntry)
    requires HistoryOf(1, ws, cs) && i < |ws| && j < |ws| && b in ws[j].nodes
    requires AppliedOk(cs[i], f) && y in ws[j].nodes[b].applies && y.index == f.index
    ensures y == f
  {
    hide Inv, Grows, Base, Safe, AppliedOk;
    var k := Later(1, ws, cs, i, j);
    NodeApplies(ws[j], cs[j], b);
    AppliedGrows(cs[i], cs[k], f);
    AppliesGrow(cs[j], cs[k], ws[j].nodes[b].applies);
    InvSafe(ws[k], cs[k]);
    CountedEqual(cs[k], f, y);
  }

  lemma LogsKeptBy(c: Core, d: Core, t: nat)
    requires Grows(c, d) && t in c.logs
    ensures t in d.logs
  {}

  lemma LeaderEntry(c: Core, a: NodeId, e: LogEntry)
    requires Base(c) && a in c.members && 1 <= e.index <= |c.members[a].log| && c.members[a].log[e.index - 1].term == e.term
    requires e.term in c.logs && e.index <= |c.logs[e.term]| && c.logs[e.term][e.index - 1] == e
    ensures c.members[a].log[e.index - 1] == e
  {
    var l := c.members[a].log;
    SameTermSamePrefix(c, l, c.logs[e.term], c.members[a].term, e.term, e.index - 1);
    assert l[..e.index][e.index - 1] == c.logs[e.term][..e.index][e.index - 1];
  }

  // --------------------------------------------------- the follower's commit rule

  /** The follower's log once the entries of a request that fits are in place. */
  function LogAfter(n: Node, req: AppendRequest): Log {
    MergedLog(n.log, MergeEntries(n.log, n.snap, req))
  }

  /** The commit index line 289 of node.cpp takes. */
  function TakenCommit(n: Node, req: AppendRequest): nat {
    Min(req.leaderCommit, LastIndex(LogAfter(n, req), n.snap))
  }

  /** Line 289 of node.cpp, exactly. In any state whose history is sound, a delivered request that fits
      and names a higher commit index makes the node hand over only chosen entries if and only if its
      own entry at the index it takes has the term of the leader's entry there. */
  lemma FollowerCommitExact(w: World, c: Core, v: NodeId, m: Msg)
    requires Inv(1, w, c) && m in w.net && m.AppendAsk? && m.to == v && v in w.nodes
    requires Fits(w.nodes[v], m.append) && w.nodes[v].hard.commit < TakenCommit(w.nodes[v], m.append)
    ensures var n, req := w.nodes[v], m.append;
            var (n', r) := OnAppend(w.cfgs[v], n, req);
            var k := TakenCommit(n, req);
            && r.Answer? && r.value.success && n'.hard.commit == n'.hard.applied == k
            && n.applies <= n'.applies && |n'.applies| == |n.applies| + k - n.hard.applied
            && req.term in c.logs && k <= |c.logs[req.term]|
            && (AppliesOk(c, n'.applies) <==>
                  TermAt(LogAfter(n, req), n.snap, k) == Some(c.logs[req.term][k - 1].term))
  {
    hide Safe, Base, MergeEntries, TermAt, Holds, AppliesOk, OnAppend, ConfigOk, Carries, Committed, LogOk;
    var n, req := w.nodes[v], m.append;
    assert MsgOk(1, c, m) && NodeOk(1, c, v, n);
    NodeApplies(w, c, v);
    FollowedLog(c, v, n, req);
    var full, k := Adjusted(c.members[v].log, c.logs[req.term], req.prevIndex + |req.entries|), TakenCommit(n, req);
    HandedOver(w.cfgs[v], n, req, full);
    ViewTerm(LogAfter(n, req), n.snap, full, k);
    HandedExact(c, req, full, n.applies, n.hard.applied, k);
  }

  /** The same without the history. In a run whose commits were verified so far, a delivered request
      that fits makes the node hand over, last, an entry e at the index it takes; some entry f is what
      every node ever applied there and what every leader of the request's term that retains the index
      has there; and e is f if and only if their terms are equal. */
  lemma FollowerCommitInRun(ws: seq<World>, ss: seq<Step>, v: NodeId, m: Msg) returns (e: LogEntry, f: LogEntry)
    requires Run(ws, ss) && Assured(1, ws, ss) && v in ws[|ss|].nodes && v in ws[|ss|].cfgs
    requires m in ws[|ss|].net && m.AppendAsk? && m.to == v && Fits(ws[|ss|].nodes[v], m.append)
    requires ws[|ss|].nodes[v].hard.commit < TakenCommit(ws[|ss|].nodes[v], m.append)
    ensures var n, req := ws[|ss|].nodes[v], m.append;
            var n', k := OnAppend(ws[|ss|].cfgs[v], n, req).0, TakenCommit(n, req);
            && n'.hard.commit == k && |n'.applies| > |n.applies| && e == n'.applies[|n'.applies| - 1]
            && e.index == f.index == k && TermAt(LogAfter(n, req), n.snap, k) == Some(e.term)
    ensures forall j, b, y :: 0 <= j < |ws| && b in ws[j].nodes && y in ws[j].nodes[b].applies && y.index == f.index ==> y == f
    ensures forall j, b :: 0 <= j < |ws| && LeaderRetains(ws[j], b, m.append.term, f.index) ==> EntryAt(ws[j].nodes[b], f.index) == f
    ensures e == f <==> e.term == f.term
  {
    hide Run, Inv, Grows, Safe, Base, MergeEntries, TermAt, Holds, AppliedOk, OnAppend, LogOk, Fits;
    var cs := History(1, ws, ss);
    var w, c := ws[|ss|], cs[|ss|];
    InvSafe(w, c);
    var n, req := w.nodes[v], m.append;
    var full := FollowedFacts(w, c, v, m);
    var k := TakenCommit(n, req);
    HandedOver(w.cfgs[v], n, req, full);
    ViewTerm(LogAfter(n, req), n.snap, full, k);
    LeaderPrefixChosen(c, req, k);
    e, f := full[k - 1], c.logs[req.term][k - 1];
    EntryIndex(c, full, req.term, k);
    LeaderLogOk(c, req.term);
    if e.term == f.term {
      SameTermSamePrefix(c, full, c.logs[req.term], req.term, req.term, k - 1);
      assert full[..k][k - 1] == c.logs[req.term][..k][k - 1];
    }
    forall j, b, y | 0 <= j < |ws| && b in ws[j].nodes && y in ws[j].nodes[b].applies && y.index == f.index ensures y == f {
      ChosenIsApplied(ws, cs, |ss|, j, b, f, y);
    }
    forall j, b | 0 <= j < |ws| && LeaderRetains(ws[j], b, req.term, f.index) ensures EntryAt(ws[j].nodes[b], f.index) == f {
      LeaderShows(ws, cs, j, |ss|, b, req.term, f.index);
    }
  }

  predicate LeaderRetains(w: World, b: NodeId, t: nat, x: nat) {
    b in w.nodes && w.nodes[b].role == Leader && w.nodes[b].hard.term == t && Retains(w.nodes[b], x)
  }

  lemma LeaderShows(ws: seq<World>, cs: seq<Core>, j: nat, i: nat, b: NodeId, t: nat, x: nat)
    requires HistoryOf(1, ws, cs) && j <= i < |ws| && LeaderRetains(ws[j], b, t, x) && t in cs[i].logs
    ensures 1 <= x <= |cs[i].logs[t]| && EntryAt(ws[j].nodes[b], x) == cs[i].logs[t][x - 1]
  {
    hide Inv, Grows, Holds, LogOk;
    NodeView(1, ws[j], cs[j], b);
    LeaderView(1, ws[j], cs[j], b);
    LeaderKeepsEntry(cs[j], cs[i], j < i, t, x);
  }

  lemma FollowedFacts(w: World, c: Core, v: NodeId, m: Msg) returns (full: Log)
    requires Inv(1, w, c) && m in w.net && m.AppendAsk? && v in w.nodes && Fits(w.nodes[v], m.append)
    ensures var n, req := w.nodes[v], m.append;
            && AppendReqOk(1, c, req) && Holds(LogAfter(n, req), n.snap, full) && Numbered(full) && LogOk(c, full, req.term)
            && (MergeEntries(n.log, n.snap, req).Unchanged? || MergeEntries(n.log, n.snap, req).Changed?)
            && SnapIndex(n.snap) <= n.hard.applied == n.hard.commit
  {
    hide Safe, Base, MergeEntries, TermAt, Holds, ConfigOk, Carries, Committed, LogOk, Numbered, AppliesOk, MatchedOk;
    var n, req := w.nodes[v], m.append;
    assert MsgOk(1, c, m) && NodeOk(1, c, v, n);
    FollowedLog(c, v, n, req);
    full := Adjusted(c.members[v].log, c.logs[req.term], req.prevIndex + |req.entries|);
  }

  /** After the merge the complete log is the takeover of the leader's prefix, and its applied part stays. */
  lemma FollowedLog(c: Core, v: NodeId, n: Node, req: AppendRequest)
    requires Safe(c) && v in c.members && NodeShape(n, c.members[v]) && Fits(n, req)
    requires req.term in c.logs && Carries(req, c.logs[req.term])
    ensures req.prevIndex + |req.entries| <= |c.logs[req.term]|
    ensures var full := Adjusted(c.members[v].log, c.logs[req.term], req.prevIndex + |req.entries|);
            && Holds(LogAfter(n, req), n.snap, full) && Numbered(full) && LogOk(c, full, req.term)
            && (MergeEntries(n.log, n.snap, req).Unchanged? || MergeEntries(n.log, n.snap, req).Changed?)
  {
    hide VotesOk, LeadersOk, RolesOk, AcksOk, RetainedAll, InheritedAll, PromisedAll, LeaderCommitsOk, MemberCommitsOk;
    hide LogOk, Numbered, Matching, TermAt, MergeEntries, Holds;
    var mem, l := c.members[v], c.logs[req.term];
    LogOkNumbered(c, mem.log, mem.term);
    LogOkNumbered(c, l, req.term);
    MatchingLogs(c, mem.log, mem.term, l, req.term);
    ViewTerm(n.log, n.snap, mem.log, req.prevIndex);
    PreviousAgrees(mem.log, l, req.prevIndex);
    MergeTakesOver(n.log, n.snap, mem.log, req, l);
    LogOkGrows(c, c, mem.log, mem.term, req.term);
    LogOkPrefix(c, l, req.term, req.prevIndex + |req.entries|);
    LogOkNumbered(c, Adjusted(mem.log, l, req.prevIndex + |req.entries|), req.term);
  }

  lemma PreviousAgrees(full: Log, l: Log, i: nat)
    requires Matching(full, l) && i <= |full| && i <= |l| && (i > 0 ==> full[i - 1].term == l[i - 1].term)
    ensures full[..i] == l[..i]
  {
    if i > 0 { assert MatchingAt(full, l, i - 1); }
  }

  /** The handler takes the commit index and hands over what lies between. */
  lemma HandedOver(cfg: Config, n: Node, req: AppendRequest, full: Log)
    requires Fits(n, req) && Holds(LogAfter(n, req), n.snap, full) && Numbered(full)
    requires MergeEntries(n.log, n.snap, req).Unchanged? || MergeEntries(n.log, n.snap, req).Changed?
    requires SnapIndex(n.snap) <= n.hard.applied == n.hard.commit < TakenCommit(n, req)
    ensures var (n', r) := OnAppend(cfg, n, req);
            && r.Answer? && r.value.success && TakenCommit(n, req) <= |full|
            && n'.hard.commit == n'.hard.applied == TakenCommit(n, req)
            && n'.applies == n.applies + full[n.hard.applied..TakenCommit(n, req)]
  {
    hide MergeEntries, TermAt, Holds, Replay, StepDown, ApplyCommitted, Numbered;
    var a := Recognise(n, req.term, req.leader);
    RecogniseFacts(n, req);
    var b := if MergeEntries(n.log, n.snap, req).Changed? then SaveLog(a.(log := LogAfter(n, req))) else a;
    var k := TakenCommit(n, req);
    ViewLast(b.log, b.snap, full);
    AppliesCommitted(cfg, b.(hard := b.hard.(commit := k)), full);
  }

  lemma RecogniseFacts(n: Node, req: AppendRequest)
    ensures var a := Recognise(n, req.term, req.leader);
            a.log == n.log && a.snap == n.snap && a.hard.commit == n.hard.commit && a.hard.applied == n.hard.applied && a.applies == n.applies
  {}

  lemma AppliesCommitted(cfg: Config, n: Node, full: Log)
    requires Holds(n.log, n.snap, full) && Numbered(full) && SnapIndex(n.snap) <= n.hard.applied < n.hard.commit <= |full|
    ensures var (n', ok) := ApplyCommitted(cfg, n);
            ok && n'.hard == n.hard.(applied := n.hard.commit) && n'.applies == n.applies + full[n.hard.applied..n.hard.commit]
  {
    hide Replay, TermAt, Numbered;
    ApplyThroughEntries(n, full, n.hard.commit);
    ViewTerm(n.log, n.snap, full, n.hard.commit);
  }

  lemma HandedExact(c: Core, req: AppendRequest, full: Log, applies: seq<LogEntry>, i: nat, k: nat)
    requires Safe(c) && AppendReqOk(1, c, req) && LogOk(c, full, req.term) && AppliesOk(c, applies)
    requires i < k <= |full| && k <= req.leaderCommit
    ensures k <= |c.logs[req.term]|
    ensures AppliesOk(c, applies + full[i..k]) <==> full[k - 1].term == c.logs[req.term][k - 1].term
  {
    hide AppliedOk, Committed, Base;
    var l := c.logs[req.term];
    LeaderPrefixChosen(c, req, k);
    if AppliesOk(c, applies + full[i..k]) {
      assert (applies + full[i..k])[|applies| + k - 1 - i] == full[k - 1];
      EntryIndex(c, full, req.term, k);
      CountedEqual(c, full[k - 1], l[k - 1]);
    }
    if full[k - 1].term == l[k - 1].term {
      LeaderLogOk(c, req.term);
      SameTermSamePrefix(c, full, l, req.term, req.term, k - 1);
      SliceApplies(c, full, i, k, applies);
    }
  }

  lemma SliceApplies(c: Core, l: Log, i: nat, k: nat, applies: seq<LogEntry>)
    requires AppliesOk(c, applies) && i <= k <= |l| && AppliesOk(c, l[..k])
    ensures AppliesOk(c, applies + l[i..k])
  {
    forall a | a in l[i..k] ensures AppliedOk(c, a) {
      var j :| 0 <= j < |l[i..k]| && l[i..k][j] == a;
      assert l[..k][i + j] == a;
    }
  }

  lemma EntryIndex(c: Core, l: Log, t: nat, k: nat)
    requires LogOk(c, l, t) && 1 <= k <= |l|
    ensures l[k - 1].index == k
  {
    assert EntryOk(c, l, k - 1, t);
  }

  lemma LeaderLogOk(c: Core, t: nat)
    requires Base(c) && t in c.logs
    ensures LogOk(c, c.logs[t], t)
  {}

  lemma LeaderPrefixChosen(c: Core, req: AppendRequest, k: nat)
    requires Safe(c) && AppendReqOk(1, c, req) && 1 <= k <= req.leaderCommit
    ensures k <= |c.logs[req.term]| && AppliesOk(c, c.logs[req.term][..k])
    ensures c.logs[req.term][k - 1].index == k && AppliedOk(c, c.logs[req.term][k - 1])
  {
    hide AppliedOk, Committed, Numbered, LogOk;
    var l := c.logs[req.term];
    LeaderLogOk(c, req.term);
    LogOkNumbered(c, l, req.term);
    NumberedPrefix(l, k);
    EntryIndex(c, l, req.term, k);
    CommittedPrefix(c, req.term, l[..req.leaderCommit], l[..k]);
    PrefixApplied(c, req.term, l[..k], l[..k]);
    assert l[..k][k - 1] == l[k - 1];
  }

  // -------------------------------------------------------------------- images

  /** Every node's image is the replay of the committed log, so nodes that have applied equally far
      hold equal images, whichever mix of entries, snapshots and restarts took them there. */
  lemma ImagesAgree(ws: seq<World>, ss: seq<Step>, i: nat, j: nat, a: NodeId, b: NodeId)
    requires Run(ws, ss) && Assured(2, ws, ss) && i < |ws| && j < |ws| && a in ws[i].nodes && b in ws[j].nodes
    requires ws[i].nodes[a].hard.applied == ws[j].nodes[b].hard.applied
    ensures ws[i].nodes[a].image == ws[j].nodes[b].image
  {
    hide Run, Grows, Base, Safe, Inv;
    var cs := History(2, ws, ss);
    var k := Later(2, ws, cs, i, j);
    ImageView(ws[i], cs[i], a);
    ImageView(ws[j], cs[j], b);
    var x := ws[i].nodes[a].hard.applied;
    var p, q := cs[i].members[a].log[..x], cs[j].members[b].log[..x];
    CommittedGrows(cs[i], cs[k], ws[i].nodes[a].hard.term, ws[i].nodes[a].hard.term, p);
    CommittedGrows(cs[j], cs[k], ws[j].nodes[b].hard.term, ws[j].nodes[b].hard.term, q);
    Tier1(ws[k], cs[k]);
    CommittedAgree(cs[k], ws[i].nodes[a].hard.term, p, ws[j].nodes[b].hard.term, q);
  }

  lemma Tier1(w: World, c: Core)
    requires Inv(2, w, c)
    ensures Inv(1, w, c) && Safe(c)
  {
    hide Safe, Base, ConfigOk, NodeShape, NodeSafe, Carries, Depicts, VoteReqOk;
    forall m | m in w.net ensures MsgOk(1, c, m) && m.id < w.calls { assert MsgOk(2, c, m); }
  }

  lemma ImageView(w: World, c: Core, a: NodeId)
    requires Inv(2, w, c) && a in w.nodes
    ensures var n := w.nodes[a];
            && a in c.members && n.hard.applied <= |c.members[a].log|
            && Committed(c, n.hard.term, c.members[a].log[..n.hard.applied])
            && n.image == Replay(map[], c.members[a].log[..n.hard.applied])
  {
    hide Base, Safe, ConfigOk;
    assert NodeOk(2, c, a, w.nodes[a]);
    CommitFacts(c, a);
  }

  lemma CommittedAgree(c: Core, t: nat, p: Log, u: nat, q: Log)
    requires Safe(c) && Committed(c, t, p) && Committed(c, u, q) && |p| == |q|
    ensures p == q
  {
    CommittedComparable(c, t, p, u, q);
  }

  // --------------------------------------------------------------- read barrier

  /** Server v accepted a request of term t in a call numbered k or later. */
  ghost predicate Reached(net: set<Msg>, v: NodeId, t: nat, k: nat) {
    exists m :: m in net && Acceptance(m, v, t, k)
  }

  predicate Acceptance(m: Msg, v: NodeId, t: nat, k: nat) {
    && m.id >= k
    && ((m.AppendAnswer? && m.from == v && m.append.term == t && m.appendReply.success)
        || (m.InstallAnswer? && m.from == v && m.install.term == t && m.installReply.success))
  }

  lemma AcceptanceIsCurrent(w: World, s: Step, w': World, m: Msg, v: NodeId, t: nat, k: nat)
    requires Next(w, s, w') && m in w'.net && m !in w.net && Acceptance(m, v, t, k)
    ensures v in w.nodes && w.nodes[v].hard.term <= t
  {
    hide TakeEntries, Recover, Recognise, TermAt, InstallLog, FinishElection, Submit, Prepare, AdvanceCommit, MaybeSnapshot, OnVote, StartElection;
    match s
    case Act(at, e) =>
      if e.Send? { var out := Prepare(w.cfgs[at], w.nodes[at], e.peer, e.heartbeat).1; }
    case _ =>
  }

  lemma TermRises(tier: nat, ws: seq<World>, cs: seq<Core>, i: nat, j: nat, v: NodeId)
    requires HistoryOf(tier, ws, cs) && i <= j < |ws| && v in ws[j].nodes
    ensures v in ws[i].nodes && ws[i].nodes[v].hard.term <= ws[j].nodes[v].hard.term
  {
    hide Base, Safe, ConfigOk, MsgOk;
    assert Inv(tier, ws[i], cs[i]) && Inv(tier, ws[j], cs[j]);
    if i < j { assert Grows(cs[i], cs[j]); }
    assert v in cs[i].servers;
    assert NodeOk(tier, cs[i], v, ws[i].nodes[v]) && NodeOk(tier, cs[j], v, ws[j].nodes[v]);
  }

  lemma KnownCall(tier: nat, w: World, c: Core, m: Msg)
    requires Inv(tier, w, c) && m in w.net
    ensures m.id < w.calls
  {}

  /** Who accepts in a call made after state i was not past that term at state i. */
  lemma {:induction false} ReachedNotAhead(tier: nat, ws: seq<World>, ss: seq<Step>, cs: seq<Core>, i: nat, j: nat, m: Msg, v: NodeId, t: nat)
    requires Run(ws, ss) && HistoryOf(tier, ws, cs) && i <= j < |ws|
    requires m in ws[j].net && Acceptance(m, v, t, ws[i].calls)
    ensures v in ws[i].nodes && ws[i].nodes[v].hard.term <= t
    decreases j
  {
    hide Next, Init, Grows, CoreOk, NodeOk, ConfigOk, MsgOk;
    if i == j {
      KnownCall(tier, ws[i], cs[i], m);
    } else if m in ws[j - 1].net {
      ReachedNotAhead(tier, ws, ss, cs, i, j - 1, m, v, t);
    } else {
      AcceptanceIsCurrent(ws[j - 1], ss[j - 1], ws[j], m, v, t, ws[i].calls);
      TermRises(tier, ws, cs, i, j - 1, v);
    }
  }

  /** A quorum that was not past term t at state c rules out that a later term had committed. */
  lemma NoLaterCommit(c: Core, q: set<NodeId>, t: nat, u: nat)
    requires Base(c) && Quorum(c, q) && u in c.leaders
    requires forall v :: v in q ==> v in c.members && c.members[v].term <= t
    ensures u <= t
  {
    assert LeaderOk(c, u);
    var v := QuorumsMeet(c, q, Voters(c, u, c.leaders[u]));
    assert SlotOk(c, Slot(v, u));
  }

  /** The commit index of a leader that has committed in its own term covers all earlier commits. */
  lemma OwnTermCoversAll(c: Core, d: Core, a: NodeId, u: nat, grown: bool)
    requires Safe(c) && Safe(d) && (if grown then Grows(c, d) else c == d)
    requires a in d.members && d.members[a].role == Leader && u in c.commits && u <= d.members[a].term
    requires 1 <= d.members[a].commit <= |d.members[a].log| && d.members[a].log[d.members[a].commit - 1].term == d.members[a].term
    ensures c.commits[u] <= d.members[a].commit
  {
    var m := d.members[a];
    assert RoleOk(d, a) && MemberCommitOk(d, a);
    assert u in d.commits && c.commits[u] <= d.commits[u];
    if u < m.term && d.commits[u] > 0 {
      CountedIsChoosable(d, u);
      assert Inherited(d, u, m.term, d.commits[u]);
      var x := d.commits[u];
      assert m.log[x - 1] == d.logs[u][..x][x - 1];
      if x > m.commit { TermsMonotone(d, m.log, m.term, m.commit - 1, x - 1); }
    }
  }

  /** What confirm_leadership has established when it returns true: a round whose calls all started
      after state `start` was accepted in term t by a quorum, and the check of the closing region passed. */
  ghost predicate Confirmed(ws: seq<World>, start: nat, round: nat, done: nat, a: NodeId, t: nat, q: set<NodeId>)
    requires start <= round <= done < |ws|
  {
    && a in ws[round].nodes && a in ws[done].nodes && a in ws[done].cfgs
    && ws[round].nodes[a].role == Leader && ws[round].nodes[a].hard.term == t
    && (forall v :: v in q ==> v in ws[done].cfgs[a].peers && Reached(ws[round].net, v, t, ws[start].calls))
    && |q| + 1 >= QuorumSize(ws[done].cfgs[a])
    && Confirms(ws[done].nodes[a], true)
  }

  /** Leadership is confirmed exactly when the node leads at both moments, a majority counting itself
      accepted the round in its term, and the entry at its commit index is of its current term. */
  lemma ConfirmedExact(ws: seq<World>, ss: seq<Step>, start: nat, round: nat, done: nat, a: NodeId, t: nat, q: set<NodeId>, full: Log)
    requires start <= round <= done < |ws| && a in ws[round].nodes && a in ws[done].nodes && a in ws[done].cfgs
    requires Rests(ws[done].nodes[a], full)
    ensures var n, cfg := ws[done].nodes[a], ws[done].cfgs[a];
            Confirmed(ws, start, round, done, a, t, q) <==>
              && ws[round].nodes[a].role == Leader && ws[round].nodes[a].hard.term == t && n.role == Leader
              && (forall v :: v in q ==> v in cfg.peers && Reached(ws[round].net, v, t, ws[start].calls))
              && Majority(cfg, |q| + 1)
              && (if n.hard.commit == 0 then n.hard.term == 0 else full[n.hard.commit - 1].term == n.hard.term)
  {
    hide Holds, Numbered, Reached, TermAt, Replay, QuorumSize, Majority;
    var n, cfg := ws[done].nodes[a], ws[done].cfgs[a];
    QuorumIsMajority(cfg, |q| + 1);
    ViewTerm(n.log, n.snap, full, n.hard.commit);
  }

  lemma PeersAtStart(ws: seq<World>, cs: seq<Core>, start: nat, done: nat, a: NodeId)
    requires HistoryOf(1, ws, cs) && start <= done < |ws| && a in ws[done].nodes
    ensures a in ws[done].cfgs && ConfigOk(cs[start].servers, a, ws[done].cfgs[a])
    ensures |cs[start].servers| == |ws[done].cfgs[a].peers| + 1
  {
    hide Inv, Grows, ConfigOk;
    ConfigView(ws[done], cs[done], a);
    if start < done { ServersKept(cs[start], cs[done]); }
    PeerCount(cs[done].servers, a, ws[done].cfgs[a]);
  }

  lemma ConfigView(w: World, c: Core, a: NodeId)
    requires Inv(1, w, c) && a in w.nodes
    ensures a in w.cfgs && ConfigOk(c.servers, a, w.cfgs[a])
  {
    hide CoreOk, NodeOk, MsgOk;
  }

  lemma TermView(tier: nat, w: World, c: Core, v: NodeId)
    requires Inv(tier, w, c) && v in w.nodes
    ensures v in c.members && c.members[v].term == w.nodes[v].hard.term
  {
    assert NodeOk(tier, c, v, w.nodes[v]);
  }

  lemma ReachedTerm(ws: seq<World>, ss: seq<Step>, cs: seq<Core>, start: nat, round: nat, v: NodeId, t: nat)
    requires Run(ws, ss) && HistoryOf(1, ws, cs) && start <= round < |ws|
    requires Reached(ws[round].net, v, t, ws[start].calls)
    ensures v in cs[start].members && cs[start].members[v].term <= t
  {
    hide Run, Inv, Grows, Acceptance;
    var m :| m in ws[round].net && Acceptance(m, v, t, ws[start].calls);
    ReachedNotAhead(1, ws, ss, cs, start, round, m, v, t);
    TermView(1, ws[start], cs[start], v);
  }

  lemma ConfirmedQuorum(ws: seq<World>, ss: seq<Step>, cs: seq<Core>, start: nat, round: nat, done: nat, a: NodeId, t: nat, q: set<NodeId>)
    requires Run(ws, ss) && HistoryOf(1, ws, cs) && start <= round <= done < |ws|
    requires Confirmed(ws, start, round, done, a, t, q)
    ensures Quorum(cs[start], q + {a})
    ensures forall v :: v in q + {a} ==> v in cs[start].members && cs[start].members[v].term <= t
  {
    hide Run, Inv, Grows, Reached, Confirms;
    var c := cs[start];
    PeersAtStart(ws, cs, start, done, a);
    TermRises(1, ws, cs, start, round, a);
    TermView(1, ws[start], c, a);
    forall v | v in q ensures v in c.servers && v in c.members && c.members[v].term <= t {
      ReachedTerm(ws, ss, cs, start, round, v, t);
    }
    assert |q + {a}| == |q| + 1;
  }

  /** The read barrier: when confirm_leadership returns true, the node has applied everything that any
      node of the cluster had committed, or had handed to its state machine even if a crash then kept it
      from recording that, when the call began; and the very same entries. */
  lemma ReadBarrier(ws: seq<World>, ss: seq<Step>, start: nat, round: nat, done: nat, a: NodeId, t: nat, q: set<NodeId>, b: NodeId)
    requires Run(ws, ss) && Assured(1, ws, ss) && start <= round <= done < |ws|
    requires Confirmed(ws, start, round, done, a, t, q) && b in ws[start].nodes
    ensures ws[start].nodes[b].hard.commit <= ws[done].nodes[a].hard.applied
    ensures forall x: nat :: 1 <= x <= ws[start].nodes[b].hard.commit && Retains(ws[start].nodes[b], x) && Retains(ws[done].nodes[a], x) ==>
              EntryAt(ws[start].nodes[b], x) == EntryAt(ws[done].nodes[a], x)
    ensures forall y :: y in ws[start].nodes[b].applies ==>
              1 <= y.index <= ws[done].nodes[a].hard.applied && (Retains(ws[done].nodes[a], y.index) ==> EntryAt(ws[done].nodes[a], y.index) == y)
  {
    hide Run, Inv, Grows, Holds, LogOk, Reached, Confirms;
    var cs := History(1, ws, ss);
    forall y | y in ws[start].nodes[b].applies
      ensures 1 <= y.index <= ws[done].nodes[a].hard.applied && (Retains(ws[done].nodes[a], y.index) ==> EntryAt(ws[done].nodes[a], y.index) == y)
    {
      BarrierApplied(ws, ss, cs, start, round, done, a, t, q, b, y);
      NodeView(1, ws[done], cs[done], a);
    }
    BarrierLog(ws, ss, cs, start, round, done, a, t, q, b);
    NodeView(1, ws[start], cs[start], b);
    NodeView(1, ws[done], cs[done], a);
    var k, f, g := ws[start].nodes[b].hard.commit, cs[start].members[b].log, cs[done].members[a].log;
    forall x: nat | 1 <= x <= k && Retains(ws[start].nodes[b], x) && Retains(ws[done].nodes[a], x)
      ensures EntryAt(ws[start].nodes[b], x) == EntryAt(ws[done].nodes[a], x)
    {
      assert f[..k][x - 1] == g[x - 1];
    }
  }

  /** What a read behind the barrier sees: the log the node has applied extends what the other node had
      committed, so its image is the other's image with further committed entries applied. */
  lemma ReadBarrierImage(ws: seq<World>, ss: seq<Step>, start: nat, round: nat, done: nat, a: NodeId, t: nat, q: set<NodeId>, b: NodeId)
    returns (full: Log)
    requires Run(ws, ss) && Assured(2, ws, ss) && start <= round <= done < |ws|
    requires Confirmed(ws, start, round, done, a, t, q) && b in ws[start].nodes
    ensures var m, n := ws[start].nodes[b], ws[done].nodes[a];
            && |full| == n.hard.applied && m.hard.commit == m.hard.applied <= |full|
            && n.image == Replay(map[], full) && m.image == Replay(map[], full[..m.hard.applied])
            && n.image == Replay(m.image, full[m.hard.applied..])
            && (forall x: nat :: 1 <= x <= m.hard.applied && Retains(m, x) ==> EntryAt(m, x) == full[x - 1])
            && (forall x: nat :: 1 <= x <= n.hard.applied && Retains(n, x) ==> EntryAt(n, x) == full[x - 1])
  {
    hide Run, Inv, Grows, Holds, LogOk, Reached, Confirms, Replay, Committed;
    var cs := History(2, ws, ss);
    forall i | 0 <= i < |ws| ensures Inv(1, ws[i], cs[i]) { Tier1(ws[i], cs[i]); }
    BarrierLog(ws, ss, cs, start, round, done, a, t, q, b);
    NodeView(1, ws[start], cs[start], b);
    NodeView(1, ws[done], cs[done], a);
    ImageView(ws[start], cs[start], b);
    ImageView(ws[done], cs[done], a);
    CommittedView(ws[start], cs[start], b);
    var k, x, f := ws[start].nodes[b].hard.applied, ws[done].nodes[a].hard.applied, cs[start].members[b].log;
    full := cs[done].members[a].log[..x];
    assert full[..k] == f[..k];
    ReplayPrefix(full, k, x);
    assert full[..x] == full && full[k..x] == full[k..];
    forall y: nat | 1 <= y <= k && Retains(ws[start].nodes[b], y) ensures EntryAt(ws[start].nodes[b], y) == full[y - 1] {
      assert f[..k][y - 1] == full[..k][y - 1];
    }
  }

  /** In terms of complete logs. */
  lemma BarrierLog(ws: seq<World>, ss: seq<Step>, cs: seq<Core>, start: nat, round: nat, done: nat, a: NodeId, t: nat, q: set<NodeId>, b: NodeId)
    requires Run(ws, ss) && HistoryOf(1, ws, cs) && start <= round <= done < |ws|
    requires Confirmed(ws, start, round, done, a, t, q) && b in ws[start].nodes
    ensures b in cs[start].members && a in cs[done].members
    ensures var k := ws[start].nodes[b].hard.commit;
            && k <= ws[done].nodes[a].hard.applied == ws[done].nodes[a].hard.commit <= |cs[done].members[a].log|
            && k <= |cs[start].members[b].log| && cs[start].members[b].log[..k] <= cs[done].members[a].log
  {
    hide Run, Inv, Grows, Base, TermAt, Reached, Quorum, Committed;
    var c, d := cs[start], cs[done];
    ConfirmedQuorum(ws, ss, cs, start, round, done, a, t, q);
    CommittedView(ws[start], c, b);
    CommittedView(ws[done], d, a);
    LeaderView(1, ws[done], d, a);
    InvSafe(ws[start], c);
    InvSafe(ws[done], d);
    TermRises(1, ws, cs, round, done, a);
    BarrierCovers(ws, cs, start, done, a, b, t, q);
    BarrierExtends(ws, cs, start, done, a, b);
  }

  /** What b had handed over is in the log that a has applied. */
  lemma BarrierApplied(ws: seq<World>, ss: seq<Step>, cs: seq<Core>, start: nat, round: nat, done: nat, a: NodeId, t: nat, q: set<NodeId>, b: NodeId, y: LogEntry)
    requires Run(ws, ss) && HistoryOf(1, ws, cs) && start <= round <= done < |ws|
    requires Confirmed(ws, start, round, done, a, t, q) && b in ws[start].nodes && y in ws[start].nodes[b].applies
    ensures a in cs[done].members && 1 <= y.index <= ws[done].nodes[a].hard.applied <= |cs[done].members[a].log|
    ensures cs[done].members[a].log[y.index - 1] == y
  {
    hide Run, Inv, Grows, Base, TermAt, Reached, Quorum, Committed, Safe, Settled, AppliesOk, Holds;
    var c, d, n := cs[start], cs[done], ws[done].nodes[a];
    ConfirmedQuorum(ws, ss, cs, start, round, done, a, t, q);
    NodeApplies(ws[start], c, b);
    NodeView(1, ws[done], d, a);
    CommittedView(ws[done], d, a);
    InvSafe(ws[start], c);
    InvSafe(ws[done], d);
    TermRises(1, ws, cs, round, done, a);
    ConfirmedCommit(d, a, n);
    SettledCovered(c, d, start < done, a, b, y, t, q + {a});
  }

  lemma SettledCovered(c: Core, d: Core, grown: bool, a: NodeId, b: NodeId, y: LogEntry, t: nat, q: set<NodeId>)
    requires Safe(c) && Safe(d) && (if grown then Grows(c, d) else c == d) && Settled(c, b, y)
    requires Quorum(c, q) && forall v :: v in q ==> v in c.members && c.members[v].term <= t
    requires a in d.members && d.members[a].role == Leader && t <= d.members[a].term
    requires 1 <= d.members[a].commit <= |d.members[a].log| && d.members[a].log[d.members[a].commit - 1].term == d.members[a].term
    ensures 1 <= y.index <= d.members[a].commit && d.members[a].log[y.index - 1] == y
  {
    hide Safe, Base, Quorum, ChosenIn, CountedIn, Grows;
    SafeIsBase(c);
    SafeIsBase(d);
    if Counted(c, y) {
      var u: nat :| CountedIn(c, u, y);
      CountedCovered(c, d, grown, a, y, u, t, q);
    } else {
      var u: nat, k: nat :| OwnChoice(c, b, u, k, y) && Retired(c, b, u);
      NoLaterCommit(c, q, t, u);
      NotRetired(c, d, grown, a, b, u);
      ChosenCovered(c, d, grown, a, y, u, k);
    }
  }

  lemma CountedCovered(c: Core, d: Core, grown: bool, a: NodeId, y: LogEntry, u: nat, t: nat, q: set<NodeId>)
    requires Safe(c) && Safe(d) && (if grown then Grows(c, d) else c == d) && CountedIn(c, u, y)
    requires Quorum(c, q) && forall v :: v in q ==> v in c.members && c.members[v].term <= t
    requires a in d.members && d.members[a].role == Leader && t <= d.members[a].term
    requires 1 <= d.members[a].commit <= |d.members[a].log| && d.members[a].log[d.members[a].commit - 1].term == d.members[a].term
    ensures 1 <= y.index <= d.members[a].commit && d.members[a].log[y.index - 1] == y
  {
    hide Safe, Base, Quorum;
    SafeIsBase(c);
    SafeIsBase(d);
    LeaderTerms(c, u);
    NoLaterCommit(c, q, t, u);
    OwnTermCoversAll(c, d, a, u, grown);
    LeaderLog(d, a);
    SafeParts(d);
    assert u in d.commits && c.commits[u] <= d.commits[u] && u in d.logs && c.logs[u] <= d.logs[u];
    assert LeaderCommitOk(d, u);
    ChosenAgree(d, u, d.commits[u], d.members[a].term, y.index);
  }

  /** A leader of a decided term did not retire from it earlier. */
  lemma NotRetired(c: Core, d: Core, grown: bool, a: NodeId, b: NodeId, u: nat)
    requires Base(d) && (if grown then Grows(c, d) else c == d) && Retired(c, b, u) && u in c.leaders && c.leaders[u] == b
    requires a in d.members && d.members[a].role == Leader
    ensures u != d.members[a].term
  {
    assert RoleOk(d, a);
    assert grown ==> LeadsNoneAnew(c, d, a);
  }

  lemma ChosenCovered(c: Core, d: Core, grown: bool, a: NodeId, y: LogEntry, u: nat, k: nat)
    requires Safe(d) && (if grown then Grows(c, d) else c == d) && ChosenIn(c, u, k, y)
    requires a in d.members && d.members[a].role == Leader && u < d.members[a].term
    requires 1 <= d.members[a].commit <= |d.members[a].log| && d.members[a].log[d.members[a].commit - 1].term == d.members[a].term
    ensures 1 <= y.index <= d.members[a].commit && d.members[a].log[y.index - 1] == y
  {
    hide Safe, Grows, Quorum, Ackers, LogOk;
    var m := d.members[a];
    SafeIsBase(d);
    LeaderLog(d, a);
    if grown { ChosenGrows(c, d, u, k, y); }
    ChosenAgree(d, u, k, m.term, y.index);
    ChosenAgree(d, u, k, m.term, k);
    if k > m.commit {
      LeaderLogOk(d, m.term);
      TermsMonotone(d, m.log, m.term, m.commit - 1, k - 1);
    }
  }

  /** Of two committed prefixes in one run, the longer extends the shorter. */
  lemma BarrierExtends(ws: seq<World>, cs: seq<Core>, start: nat, done: nat, a: NodeId, b: NodeId)
    requires HistoryOf(1, ws, cs) && start <= done < |ws| && a in ws[done].nodes && b in ws[start].nodes
    requires ws[start].nodes[b].hard.commit <= ws[done].nodes[a].hard.commit
    ensures b in cs[start].members && a in cs[done].members
    ensures ws[start].nodes[b].hard.commit <= |cs[start].members[b].log|
    ensures cs[start].members[b].log[..ws[start].nodes[b].hard.commit] <= cs[done].members[a].log
  {
    hide Inv, Grows, Committed, Base;
    CommittedView(ws[start], cs[start], b);
    CommittedView(ws[done], cs[done], a);
    var m, n := ws[start].nodes[b].hard, ws[done].nodes[a].hard;
    var p, q := cs[start].members[b].log[..m.commit], cs[done].members[a].log[..n.commit];
    if start < done { CommittedGrows(cs[start], cs[done], m.term, m.term, p); }
    InvSafe(ws[done], cs[done]);
    CommittedComparable(cs[done], m.term, p, n.term, q);
    assert p <= q;
  }

  lemma BarrierCovers(ws: seq<World>, cs: seq<Core>, start: nat, done: nat, a: NodeId, b: NodeId, t: nat, q: set<NodeId>)
    requires HistoryOf(1, ws, cs) && start <= done < |ws| && a in ws[done].nodes && b in ws[start].nodes
    requires b in cs[start].members && Safe(cs[start]) && Safe(cs[done])
    requires ws[start].nodes[b].hard.commit <= |cs[start].members[b].log|
    requires Committed(cs[start], ws[start].nodes[b].hard.term, cs[start].members[b].log[..ws[start].nodes[b].hard.commit])
    requires Quorum(cs[start], q + {a})
    requires forall v :: v in q + {a} ==> v in cs[start].members && cs[start].members[v].term <= t
    requires ws[done].nodes[a].hard.term >= t && Confirms(ws[done].nodes[a], true)
    ensures ws[start].nodes[b].hard.commit <= ws[done].nodes[a].hard.applied
  {
    hide Inv, Grows, Safe, TermAt, Quorum, Holds, LogOk;
    var c, d, n, k := cs[start], cs[done], ws[done].nodes[a], ws[start].nodes[b].hard.commit;
    if k > 0 {
      var u: nat :| u <= ws[start].nodes[b].hard.term && CommittedAt(c, u, c.members[b].log[..k]);
      SafeIsBase(c);
      SafeIsBase(d);
      LeaderTerms(c, u);
      NoLaterCommit(c, q + {a}, t, u);
      NodeView(1, ws[done], d, a);
      CommittedView(ws[done], d, a);
      ViewTerm(n.log, n.snap, d.members[a].log, n.hard.commit);
      ConfirmedCommit(d, a, n);
      OwnTermCoversAll(c, d, a, u, start < done);
    }
  }

  lemma LeaderTerms(c: Core, u: nat)
    requires Base(c) && u in c.logs
    ensures u in c.leaders
  {}

  lemma ConfirmedCommit(d: Core, a: NodeId, n: Node)
    requires Base(d) && a in d.members && NodeShape(n, d.members[a]) && n.role == Leader
    requires n.hard.commit <= |d.members[a].log|
    requires n.hard.commit == 0 || SnapIndex(n.snap) <= n.hard.commit
    requires TermAt(n.log, n.snap, n.hard.commit) == Some(n.hard.term)
    ensures n.hard.commit >= 1 && d.members[a].log[n.hard.commit - 1].term == n.hard.term
  {
    MemberNumbered(d, a);
    ViewTerm(n.log, n.snap, d.members[a].log, n.hard.commit);
    assert RoleOk(d, a) && LeaderOk(d, n.hard.term);
  }
}
