/** A node's disk as bytes: the hard state, the log, and the snapshot with the state machine's map
    inside (src/raft/storage.cpp, src/raft/state_machine.cpp). The protocol numbers nodes and the file
    names them, so saving and loading take the group's names. */
module RaftFiles {
  import opened Basics
  import opened RaftTypes
  import opened RaftNode
  import opened RaftView
  import RaftRepair
  import W = RaftCodec

  datatype Files = Files(hard: seq<Byte>, log: seq<Byte>, snap: Option<seq<Byte>>)

  type Pairs = seq<(Text, Text)>

  /** Each node of the group has a name of its own; the empty name stands for no vote. */
  datatype Naming = Naming(names: map<NodeId, Text>, ids: map<Text, NodeId>) {
    ghost predicate Ok() {
      forall v :: v in names ==> 0 < |names[v]| < W.WORD && names[v] in ids && ids[names[v]] == v
    }
  }

  // ---------------------------------------------------------------------- saving

  function ToWire(e: LogEntry): W.Entry {
    var c := match e.command
             case Noop => W.Command(0, [], [])
             case Put(k, v) => W.Command(1, k, v)
             case Delete(k) => W.Command(2, k, []);
    W.Entry(e.index, e.term, c)
  }

  function FromWire(e: W.Entry): LogEntry {
    var c := if e.command.kind == 0 then Noop
             else if e.command.kind == 1 then Put(e.command.key, e.command.value)
             else Delete(e.command.key);
    LogEntry(e.index, e.term, c)
  }

  function WireLog(log: Log): seq<W.Entry> {
    seq(|log|, i requires 0 <= i < |log| => ToWire(log[i]))
  }

  function LogOf(es: seq<W.Entry>): Log {
    seq(|es|, i requires 0 <= i < |es| => FromWire(es[i]))
  }

  /** The snapshot file, for a walk of the image in key order. */
  function SnapshotBytes(s: Snapshot, ps: Pairs): seq<Byte> {
    W.Wrap(W.SNAPSHOT_MAGIC, W.EncodeSnapshot(W.SnapshotFile(s.index, s.term, W.EncodeMap(ps))))
  }

  function NameOf(g: Naming, v: Option<NodeId>): Text {
    if v.Some? && v.value in g.names then g.names[v.value] else []
  }

  function HardBytes(g: Naming, h: HardState): seq<Byte> {
    W.Wrap(W.HARD_MAGIC, W.EncodeHard(W.Hard(h.term, NameOf(g, h.votedFor), h.commit, h.applied)))
  }

  function Saved(g: Naming, d: Disk, ps: Pairs): Files {
    Files(HardBytes(g, d.hard), W.Wrap(W.LOG_MAGIC, W.EncodeLog(WireLog(d.log))), if d.snap.Some? then Some(SnapshotBytes(d.snap.value, ps)) else None)
  }

  // --------------------------------------------------------------------- loading

  /** Envelope, snapshot, map: a fault at any of the three stops the start. */
  function LoadSnapshot(file: seq<Byte>): Option<Snapshot> {
    match W.Unwrap(W.SNAPSHOT_MAGIC, file)
    case None => None
    case Some(payload) =>
      match W.DecodeSnapshot(payload)
      case None => None
      case Some(s) =>
        match W.RestoreMap(s.payload)
        case None => None
        case Some(image) => Some(Snapshot(s.index, s.term, image))
  }

  /** A vote for a name outside the group is no vote the model can hold. */
  function LoadHard(g: Naming, file: seq<Byte>): Option<HardState> {
    match W.Unwrap(W.HARD_MAGIC, file)
    case None => None
    case Some(payload) =>
      match W.DecodeHard(payload)
      case None => None
      case Some(h) =>
        if h.votedFor == [] then Some(HardState(h.term, None, h.commit, h.applied))
        else if h.votedFor in g.ids then Some(HardState(h.term, Some(g.ids[h.votedFor]), h.commit, h.applied))
        else None
  }

  function LoadLog(file: seq<Byte>): Option<Log> {
    match W.Unwrap(W.LOG_MAGIC, file)
    case None => None
    case Some(payload) =>
      match W.DecodeLog(payload)
      case None => None
      case Some(es) => Some(LogOf(es))
  }

  function Load(g: Naming, f: Files): Option<Disk> {
    match LoadHard(g, f.hard)
    case None => None
    case Some(hard) =>
      match LoadLog(f.log)
      case None => None
      case Some(log) =>
        if f.snap.None? then Some(Disk(hard, log, None))
        else
          match LoadSnapshot(f.snap.value)
          case None => None
          case Some(s) => Some(Disk(hard, log, Some(s)))
  }

  // ---------------------------------------------------------------- round trip

  /** What the field widths of the format allow. */
  ghost predicate LogFits(log: Log) {
    |log| < W.LONG && forall i :: 0 <= i < |log| ==> W.EntryFits(ToWire(log[i]))
  }

  ghost predicate HardFits(g: Naming, h: HardState) {
    && h.term < W.LONG && h.commit < W.LONG && h.applied < W.LONG
    && g.Ok() && (h.votedFor.Some? ==> h.votedFor.value in g.names)
  }

  ghost predicate SnapshotFits(s: Snapshot, ps: Pairs) {
    && s.index < W.LONG && s.term < W.LONG && |ps| < W.LONG && |W.EncodeMap(ps)| < W.WORD
    && (forall i :: 0 <= i < |ps| ==> W.PairFits(ps[i]))
    && W.InKeyOrder(ps) && W.MapOf(ps) == s.image
  }

  lemma LogLoads(log: Log, snap: Option<Snapshot>)
    requires LogFits(log) && Contiguous(log, snap)
    ensures LoadLog(W.Wrap(W.LOG_MAGIC, W.EncodeLog(WireLog(log)))) == Some(log)
  {
    hide W.Wrap, W.Unwrap, W.EncodeLog, W.DecodeLog;
    W.WrapRoundTrip(W.LOG_MAGIC, W.EncodeLog(WireLog(log)));
    W.LogRoundTrip(WireLog(log));
    assert LogOf(WireLog(log)) == log;
  }

  lemma HardLoads(g: Naming, h: HardState)
    requires HardFits(g, h)
    ensures LoadHard(g, HardBytes(g, h)) == Some(h)
  {
    hide W.Wrap, W.Unwrap, W.EncodeHard, W.DecodeHard;
    var wire := W.Hard(h.term, NameOf(g, h.votedFor), h.commit, h.applied);
    W.WrapRoundTrip(W.HARD_MAGIC, W.EncodeHard(wire));
    W.HardRoundTrip(wire);
  }

  lemma SnapshotLoads(s: Snapshot, ps: Pairs)
    requires SnapshotFits(s, ps)
    ensures LoadSnapshot(SnapshotBytes(s, ps)) == Some(s)
  {
    hide W.Wrap, W.Unwrap, W.EncodeSnapshot, W.DecodeSnapshot, W.EncodeMap, W.RestoreMap, W.MapOf;
    var file := W.SnapshotFile(s.index, s.term, W.EncodeMap(ps));
    W.WrapRoundTrip(W.SNAPSHOT_MAGIC, W.EncodeSnapshot(file));
    W.SnapshotRoundTrip(file);
    W.MapRoundTrip(ps);
  }

  /** What was saved is what the next start loads. */
  lemma LoadSaved(g: Naming, d: Disk, ps: Pairs)
    requires HardFits(g, d.hard) && LogFits(d.log) && Contiguous(d.log, d.snap)
    requires d.snap.Some? ==> SnapshotFits(d.snap.value, ps)
    ensures Load(g, Saved(g, d, ps)) == Some(d)
  {
    hide LoadHard, LoadLog, LoadSnapshot, HardBytes, W.Wrap, W.EncodeLog, SnapshotBytes, Contiguous, HardFits, LogFits, SnapshotFits;
    HardLoads(g, d.hard);
    LogLoads(d.log, d.snap);
    if d.snap.Some? { SnapshotLoads(d.snap.value, ps); }
  }

  /** Recovery from the files: loading succeeds, the start succeeds exactly when the commit index is
      within the log, and then the image is the replay of the whole committed log. */
  lemma RecoveryFromFiles(g: Naming, d: Disk, ps: Pairs, full: Log, writes: seq<Write>, applies: seq<LogEntry>)
    requires Holds(d.log, d.snap, full) && Numbered(full)
    requires HardFits(g, d.hard) && LogFits(d.log) && (d.snap.Some? ==> SnapshotFits(d.snap.value, ps))
    requires d.snap.Some? ==> d.snap.value.image == Replay(map[], full[..d.snap.value.index])
    ensures Load(g, Saved(g, d, ps)).Some?
    ensures var r := Recover(Load(g, Saved(g, d, ps)).value, writes, applies);
            && (r.Some? <==> d.hard.commit <= |full|)
            && (r.Some? ==>
                  && r.value.hard.applied == r.value.hard.commit == Max(d.hard.commit, SnapIndex(d.snap))
                  && r.value.image == Replay(map[], full[..r.value.hard.commit]))
  {
    hide Load, Saved, Recover, Replay, HardFits, LogFits, SnapshotFits;
    ViewLast(d.log, d.snap, full);
    LoadSaved(g, d, ps);
    RaftRepair.RecoveryIsReplay(d, full, writes, applies);
  }
}
