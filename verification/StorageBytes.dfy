/** The durable state as bytes: the log with a possibly torn last record, the table files, the manifests
    and CURRENT. What the store's steps leave as values can be read back from bytes that depict it, so a
    session whose every restart reads such bytes is a session over values. File names stand for file
    ids and manifest generations. */
module StorageBytes {
  import opened Basics
  import opened Records
  import opened Tables
  import opened Directories
  import opened SSTableFormat
  import F = SSTableFile
  import L = ManifestFile
  import W = WalFile
  import S = PersistentStore

  datatype ByteDisk = ByteDisk(log: seq<Byte>, tables: map<nat, seq<Byte>>, manifests: map<nat, seq<Byte>>, current: Option<seq<Byte>>)

  /** The table file and the manifest that each name stands for. */
  datatype Names = Names(tables: map<Text, nat>, manifests: map<Text, nat>)

  // ------------------------------------------------------------- one table file

  function TableOf(file: seq<Byte>): Option<File> {
    match F.Open(file)
    case None => None
    case Some(o) =>
      match F.ReadAll(file, o)
      case None => None
      case Some(rs) => Some(File(o.generation, rs))
  }

  ghost predicate WrittenAs(file: seq<Byte>, f: File, bs: seq<seq<Record>>, target: nat) {
    F.Writable(bs, f.records, target, f.generation) && file == F.FileOf(bs, f.records, target, f.generation)
  }

  /** The bytes the writer makes of this table, for some block size. */
  ghost predicate Written(file: seq<Byte>, f: File) {
    exists bs, target :: WrittenAs(file, f, bs, target)
  }

  lemma WrittenReads(file: seq<Byte>, f: File)
    requires Written(file, f)
    ensures TableOf(file) == Some(f)
  {
    hide F.Open, F.ReadAll, F.FileOf, F.Writable, F.Layout;
    var bs, target :| WrittenAs(file, f, bs, target);
    F.WrittenOpens(bs, f.records, target, f.generation);
    F.ReadAllWritten(bs, f.records, target, f.generation);
  }

  // ------------------------------------------ what flushes and compactions write

  ghost predicate AllFit(rs: seq<Record>) {
    forall i :: 0 <= i < |rs| ==> RecordFits(rs[i])
  }

  /** A memtable of fitting records stays one under any write the store lets through. */
  lemma WriteFits(rs: seq<Record>, op: Op, seqno: nat)
    requires AllFit(rs) && S.ValidOp(op) && 0 < seqno < LONG
    ensures AllFit(Upsert(rs, op.key, Entry(if op.Put? then op.value else [], seqno, op.Delete?)))
  {
    var e := Entry(if op.Put? then op.value else [], seqno, op.Delete?);
    var after := Upsert(rs, op.key, e);
    forall i | 0 <= i < |after| ensures RecordFits(after[i]) { UpsertMembers(rs, op.key, e, after[i]); }
  }

  /** A compaction of fitting tables writes fitting records, in order. */
  lemma OutputFits(selected: seq<Table>, unselected: seq<Table>)
    requires AllGood(selected) && forall i :: 0 <= i < |selected| ==> AllFit(selected[i].records)
    ensures AllFit(Kept(Merged(selected), unselected)) && Sorted(Kept(Merged(selected), unselected))
  {
    hide RecordFits;
    var kept := Kept(Merged(selected), unselected);
    MergedFinds(selected, []);
    KeptSorted(Merged(selected), unselected);
    forall i | 0 <= i < |kept| ensures RecordFits(kept[i]) {
      var r := kept[i];
      MergedFinds(selected, r.key);
      KeptSubset(Merged(selected), unselected, r);
      FindIsMember(Merged(selected), r.key, r.entry);
      NewestIsMax(selected, r.key);
      var j :| HeldAt(selected, j, r.key, r.entry);
      var p := FindSome(selected[j].records, r.key);
      assert selected[j].records[p] == r;
    }
  }

  /** A sorted list of fitting records, be it a frozen memtable or a compaction's output, becomes a file
      that reads back as the very table that is published. */
  method WriteTable(f: File, target: nat) returns (file: seq<Byte>)
    requires 0 < |f.records| < WORD && Sorted(f.records) && AllFit(f.records) && 0 < target < WORD && f.generation < LONG
    ensures Written(file, f) && TableOf(file) == Some(f)
  {
    hide F.FileOf, F.Writable, F.Partitioned, RecordFits;
    var r; ghost var bs;
    r, bs := F.Write(f.records, target, f.generation);
    file := r.value;
    assert WrittenAs(file, f, bs, target);
    WrittenReads(file, f);
  }

  // ------------------------------------------------------- manifests and CURRENT

  function MetaOfLine(ns: Names, l: L.Line): Option<Meta> {
    if l.name !in ns.tables then None
    else
      Some(Meta(ns.tables[l.name], if l.level == 0 then Level0 else Level1, l.generation, l.count, l.minSeq, l.maxSeq, l.smallest, l.largest))
  }

  function MetasOfLines(ns: Names, ls: seq<L.Line>): Option<seq<Meta>> {
    if |ls| == 0 then Some([])
    else
      var front, m := MetasOfLines(ns, ls[..|ls| - 1]), MetaOfLine(ns, ls[|ls| - 1]);
      if front.None? || m.None? then None else Some(front.value + [m.value])
  }

  function ManifestOfListing(ns: Names, x: L.Listing): Option<Manifest> {
    match MetasOfLines(ns, x.lines)
    case None => None
    case Some(ms) => Some(Manifest(x.generation, x.nextFileId, ms))
  }

  function ManifestOf(ns: Names, file: seq<Byte>): Option<Manifest> {
    match L.ParseManifest(file)
    case None => None
    case Some(x) => ManifestOfListing(ns, x)
  }

  ghost predicate ListedAs(ns: Names, file: seq<Byte>, m: Manifest, x: L.Listing) {
    L.ListingFits(x) && file == L.EncodeManifest(x) && ManifestOfListing(ns, x) == Some(m)
  }

  /** The bytes of this manifest, for some block counts. */
  ghost predicate ManifestWritten(ns: Names, file: seq<Byte>, m: Manifest) {
    exists x :: ListedAs(ns, file, m, x)
  }

  lemma ManifestReads(ns: Names, file: seq<Byte>, m: Manifest)
    requires ManifestWritten(ns, file, m)
    ensures ManifestOf(ns, file) == Some(m)
  {
    hide L.ParseManifest, L.EncodeManifest, L.ListingFits, MetasOfLines;
    var x :| ListedAs(ns, file, m, x);
    L.ManifestRoundTrip(x);
  }

  function CurrentOf(ns: Names, file: seq<Byte>): Option<nat> {
    match L.ParseCurrent(file)
    case None => None
    case Some(name) => if name in ns.manifests then Some(ns.manifests[name]) else None
  }

  ghost predicate CurrentWritten(ns: Names, file: seq<Byte>, g: nat) {
    exists name :: L.CurrentName(name) && file == L.EncodeCurrent(name) && name in ns.manifests && ns.manifests[name] == g
  }

  lemma CurrentReads(ns: Names, file: seq<Byte>, g: nat)
    requires CurrentWritten(ns, file, g)
    ensures CurrentOf(ns, file) == Some(g)
  {
    hide L.ParseCurrent, L.EncodeCurrent, L.CurrentName;
    var name :| L.CurrentName(name) && file == L.EncodeCurrent(name) && name in ns.manifests && ns.manifests[name] == g;
    L.CurrentRoundTrip(name);
  }

  // ------------------------------------------------------------ the whole state

  /** Part of a record's bytes, as a crash inside its append leaves them; none when there was no crash. */
  ghost predicate Torn(tail: seq<Byte>) {
    exists op, n :: TornAt(tail, op, n)
  }

  ghost predicate TornAt(tail: seq<Byte>, op: Op, n: nat) {
    S.ValidOp(op) && n < |W.Encode(op)| && tail == W.Encode(op)[..n]
  }

  ghost predicate LogDepicts(log: seq<Byte>, ops: seq<Op>) {
    W.AllValid(ops) && exists tail :: Torn(tail) && log == W.EncodeAll(ops) + tail
  }

  ghost predicate TablesDepict(tables: map<nat, seq<Byte>>, files: map<nat, File>) {
    tables.Keys == files.Keys && forall id :: id in files ==> Written(tables[id], files[id])
  }

  ghost predicate ManifestsDepict(ns: Names, files: map<nat, seq<Byte>>, ms: map<nat, Manifest>) {
    files.Keys == ms.Keys && forall g :: g in ms ==> ManifestWritten(ns, files[g], ms[g])
  }

  ghost predicate CurrentDepicts(ns: Names, file: Option<seq<Byte>>, g: Option<nat>) {
    if file.None? then g.None? else g.Some? && CurrentWritten(ns, file.value, g.value)
  }

  /** These bytes are the durable state d, with or without a torn last append. */
  ghost predicate Depicts(ns: Names, b: ByteDisk, d: Disk) {
    && LogDepicts(b.log, d.wal) && TablesDepict(b.tables, d.files)
    && ManifestsDepict(ns, b.manifests, d.manifests) && CurrentDepicts(ns, b.current, d.current)
  }

  /** A log cut off inside an append scans as the log before it. */
  lemma LogReads(log: seq<Byte>, ops: seq<Op>)
    requires LogDepicts(log, ops)
    ensures W.Scan(log).ops == ops
  {
    hide W.Scan, W.EncodeAll, W.Encode;
    var tail :| Torn(tail) && log == W.EncodeAll(ops) + tail;
    var op, n :| TornAt(tail, op, n);
    W.AppendIsAtomic(ops, op, n);
  }

  method DecodeTables(tables: map<nat, seq<Byte>>) returns (r: Option<map<nat, File>>)
    ensures forall files :: TablesDepict(tables, files) ==> r == Some(files)
  {
    hide TableOf, Written;
    var got: map<nat, File>, pending := map[], tables.Keys;
    while |pending| > 0
      invariant pending <= tables.Keys && got.Keys == tables.Keys - pending
      invariant forall id :: id in got ==> TableOf(tables[id]) == Some(got[id])
      decreases |pending|
    {
      var id :| id in pending;
      var f := TableOf(tables[id]);
      if f.None? {
        forall files | TablesDepict(tables, files) ensures false { WrittenReads(tables[id], files[id]); }
        return None;
      }
      got := got[id := f.value];
      pending := pending - {id};
    }
    forall files | TablesDepict(tables, files) ensures got == files {
      forall id | id in got ensures got[id] == files[id] { WrittenReads(tables[id], files[id]); }
    }
    r := Some(got);
  }

  method DecodeManifests(ns: Names, files: map<nat, seq<Byte>>) returns (r: Option<map<nat, Manifest>>)
    ensures forall ms :: ManifestsDepict(ns, files, ms) ==> r == Some(ms)
  {
    hide ManifestOf, ManifestWritten;
    var got: map<nat, Manifest>, pending := map[], files.Keys;
    while |pending| > 0
      invariant pending <= files.Keys && got.Keys == files.Keys - pending
      invariant forall g :: g in got ==> ManifestOf(ns, files[g]) == Some(got[g])
      decreases |pending|
    {
      var g :| g in pending;
      var m := ManifestOf(ns, files[g]);
      if m.None? {
        forall ms | ManifestsDepict(ns, files, ms) ensures false { ManifestReads(ns, files[g], ms[g]); }
        return None;
      }
      got := got[g := m.value];
      pending := pending - {g};
    }
    forall ms | ManifestsDepict(ns, files, ms) ensures got == ms {
      forall g | g in got ensures got[g] == ms[g] { ManifestReads(ns, files[g], ms[g]); }
    }
    r := Some(got);
  }

  /** Read everything: scan the log, read each table and manifest, and CURRENT. Whatever durable state the
      bytes depict is what is read. */
  method Decode(ns: Names, b: ByteDisk) returns (r: Option<Disk>)
    ensures forall d :: Depicts(ns, b, d) ==> r == Some(d)
  {
    hide LogDepicts, TablesDepict, ManifestsDepict, CurrentWritten, CurrentOf, W.Scan;
    var scanned := W.ScanFile(b.log);
    var files := DecodeTables(b.tables);
    var manifests := DecodeManifests(ns, b.manifests);
    var current := if b.current.None? then None else CurrentOf(ns, b.current.value);
    forall d | Depicts(ns, b, d)
      ensures scanned.ops == d.wal && files == Some(d.files) && manifests == Some(d.manifests) && current == d.current
    {
      LogReads(b.log, d.wal);
      if b.current.Some? { CurrentReads(ns, b.current.value, d.current.value); }
    }
    r := if files.None? || manifests.None? then None else Some(Disk(scanned.ops, files.value, manifests.value, current));
  }

  /** Opening from the bytes: whatever durable state the store's steps left, as bytes, with or without a
      torn last append, opens as the map that state stands for. */
  method OpenBytes(ns: Names, b: ByteDisk, maxBytes: nat, trigger: nat, maxTables: nat, automatic: bool, ghost d: Disk, ghost m: map<Key, Text>)
    returns (s: S.KeyValueStore)
    requires Depicts(ns, b, d) && S.Opens(d, m) && maxBytes > 0 && 2 <= trigger <= maxTables
    ensures fresh(s) && fresh(s.dir) && fresh(s.tables) && fresh(s.mem) && fresh(s.mem.active)
    ensures s.Valid() && s.model == m
  {
    hide Depicts, S.Opens, S.KeyValueStore.Valid, S.AllRepresent;
    var r := Decode(ns, b);
    s := S.Reopen(r.value, maxBytes, trigger, maxTables, automatic, m);
  }

  // ------------------------------------------------------------- whole sessions

  /** An action that returns, or one cut off after some of its durable steps, which leaves these bytes for
      the next start to read. */
  datatype Step = Complete(action: S.Action) | Crashed(action: S.Action, steps: nat, left: ByteDisk)

  ghost predicate Follows(m: map<Key, Text>, step: Step, m': map<Key, Text>) {
    match step
    case Complete(a) => S.Follows(m, S.Complete(a), m')
    case Crashed(a, n, _) => S.Follows(m, S.Crashed(a, n, []), m')
  }

  /** One step and the map m after it; d is the durable state a crash leaves, which opens as m. Only bytes
      that do not depict it stop the session. */
  method TakeStep(ns: Names, s: S.KeyValueStore, step: Step, maxBytes: nat, trigger: nat, maxTables: nat, automatic: bool)
    returns (ok: bool, s': S.KeyValueStore, ghost d: Disk, ghost m: map<Key, Text>)
    requires s.Valid() && maxBytes > 0 && 2 <= trigger <= maxTables
    modifies s, s.dir, s.tables, s.mem, s.mem.active
    ensures Follows(old(s.model), step, m) && (step.Crashed? ==> S.Opens(d, m)) && (ok ==> s'.Valid() && s'.model == m)
    ensures ok ==> s' == s || (fresh(s') && fresh(s'.dir) && fresh(s'.tables) && fresh(s'.mem))
    ensures ok ==> s'.mem.active == old(s.mem.active) || fresh(s'.mem.active)
    ensures !ok ==> step.Crashed? && !Depicts(ns, step.left, d)
  {
    hide Depicts, S.Opens, S.Represents, S.AllRepresent, S.Follows, S.KeyValueStore.Valid;
    ok, s', d, m := true, s, Disk([], map[], map[], None), S.Do(s.model, step.action);
    match step {
      case Complete(a) =>
        S.Perform(s, a);
        CompleteFollows(old(s.model), a, s.model);
      case Crashed(a, n, left) =>
        var was;
        was, m := S.PerformAndCrash(s, a, n);
        d := was;
        S.OpensRepresented(was, m);
        var r := Decode(ns, left);
        if r != Some(was) {
          return false, s, was, m;
        }
        s' := S.Reopen(r.value, maxBytes, trigger, maxTables, automatic, m);
    }
  }

  lemma CompleteFollows(m: map<Key, Text>, a: S.Action, m': map<Key, Text>)
    requires m' == S.Do(m, a)
    ensures S.Follows(m, S.Complete(a), m')
  {}

  /** Over every session of operations and crashes whose restarts read bytes, the store is the plain map of
      the completed operations, with at most the one in flight at each crash in doubt, for as long as
      the bytes found depict the durable state that was left. */
  method Session(ns: Names, b: ByteDisk, steps: seq<Step>, maxBytes: nat, trigger: nat, maxTables: nat, automatic: bool,
                 ghost d: Disk, ghost m: map<Key, Text>)
    returns (ok: bool, s: S.KeyValueStore, ghost ms: seq<map<Key, Text>>, ghost ds: seq<Disk>)
    requires Depicts(ns, b, d) && S.Opens(d, m) && maxBytes > 0 && 2 <= trigger <= maxTables
    ensures |ms| == |ds| + 1 <= |steps| + 1 && ms[0] == m
    ensures forall i :: 0 <= i < |ds| ==> Follows(ms[i], steps[i], ms[i + 1]) && (steps[i].Crashed? ==> S.Opens(ds[i], ms[i + 1]))
    ensures ok ==> |ds| == |steps| && s.Valid() && s.model == ms[|steps|]
    ensures !ok ==> |ds| > 0 && steps[|ds| - 1].Crashed? && !Depicts(ns, steps[|ds| - 1].left, ds[|ds| - 1])
  {
    hide Depicts, S.Opens, Follows, S.KeyValueStore.Valid;
    s := OpenBytes(ns, b, maxBytes, trigger, maxTables, automatic, d, m);
    ok, ms, ds := true, [m], [];
    var i := 0;
    while i < |steps|
      invariant 0 <= i <= |steps| && ok && |ms| == i + 1 && |ds| == i && ms[0] == m
      invariant fresh(s) && fresh(s.dir) && fresh(s.tables) && fresh(s.mem) && fresh(s.mem.active)
      invariant s.Valid() && s.model == ms[i]
      invariant forall j :: 0 <= j < i ==> Follows(ms[j], steps[j], ms[j + 1]) && (steps[j].Crashed? ==> S.Opens(ds[j], ms[j + 1]))
    {
      ghost var left, now;
      ok, s, left, now := TakeStep(ns, s, steps[i], maxBytes, trigger, maxTables, automatic);
      ds, ms := ds + [left], ms + [now];
      if !ok {
        return;
      }
      i := i + 1;
    }
  }
}
