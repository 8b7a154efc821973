/** Values shared by the replication model: commands, log entries, messages and
    the state of one Raft node (include/nebulakv/raft/types.hpp). Node identifiers
    are numbers; the empty identifier of the source is `None`. */
module RaftTypes {
  import opened Basics

  type NodeId = nat

  datatype Role = Follower | Candidate | Leader

  datatype Command = Noop | Put(key: Text, value: Text) | Delete(key: Text)

  datatype LogEntry = LogEntry(index: nat, term: nat, command: Command)

  type Log = seq<LogEntry>

  /** The key/value image held by the state machine. */
  type Image = map<Text, Text>

  datatype Snapshot = Snapshot(index: nat, term: nat, image: Image)

  datatype HardState = HardState(term: nat, votedFor: Option<NodeId>, commit: nat, applied: nat)

  datatype VoteRequest = VoteRequest(term: nat, candidate: NodeId, lastIndex: nat, lastTerm: nat)

  datatype VoteResponse = VoteResponse(term: nat, granted: bool)

  datatype AppendRequest = AppendRequest(term: nat, leader: NodeId, prevIndex: nat, prevTerm: nat,
                                         entries: seq<LogEntry>, leaderCommit: nat)

  datatype AppendResponse = AppendResponse(term: nat, success: bool, matchIndex: nat, conflictIndex: nat)

  datatype InstallRequest = InstallRequest(term: nat, leader: NodeId, lastIndex: nat, lastTerm: nat, image: Image)

  datatype InstallResponse = InstallResponse(term: nat, success: bool, installedIndex: nat)

  function Min(a: nat, b: nat): nat { if a <= b then a else b }

  function Max(a: nat, b: nat): nat { if a <= b then b else a }
}
