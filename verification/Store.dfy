/** The persistent store: it is a plain map, and stays one across a crash between any two durable
    steps. */
module PersistentStore {
  import opened Basics
  import opened Records
  import opened Tables
  import opened Directories
  import opened Selection
  import opened Manager
  import M = MemTables

  // ------------------------------------------------------------ the log's meaning

  function Apply(m: map<Key, Text>, op: Op): map<Key, Text> {
    match op
    case Put(k, v) => m[k := v]
    case Delete(k) => m - {k}
  }

  function Effect(op: Op): Option<Text> {
    match op
    case Put(_, v) => Some(v)
    case Delete(_) => None
  }

  /** What key k holds after replaying the log over `base`: its last record decides. */
  function After(wal: seq<Op>, base: Option<Text>, k: Key): Option<Text> {
    if |wal| == 0 then base
    else if wal[|wal| - 1].key == k then Effect(wal[|wal| - 1])
    else After(wal[..|wal| - 1], base, k)
  }

  ghost predicate Touched(wal: seq<Op>, k: Key) {
    exists i :: 0 <= i < |wal| && wal[i].key == k
  }

  predicate ValidOp(op: Op) {
    M.ValidKey(op.key) && (op.Put? ==> M.ValidValue(op.value))
  }

  ghost predicate ValidLog(wal: seq<Op>) {
    forall i :: 0 <= i < |wal| ==> ValidOp(wal[i])
  }

  lemma {:induction false} AfterTouched(wal: seq<Op>, a: Option<Text>, b: Option<Text>, k: Key)
    requires Touched(wal, k)
    ensures After(wal, a, k) == After(wal, b, k)
  {
    var n := |wal| - 1;
    if wal[n].key != k {
      var i :| 0 <= i < |wal| && wal[i].key == k;
      assert wal[..n][i].key == k;
      AfterTouched(wal[..n], a, b, k);
    }
  }

  lemma {:induction false} AfterUntouched(wal: seq<Op>, base: Option<Text>, k: Key)
    requires !Touched(wal, k)
    ensures After(wal, base, k) == base
  {
    if |wal| > 0 {
      var n := |wal| - 1;
      assert wal[n].key != k;
      forall i | 0 <= i < n ensures wal[..n][i].key != k { assert wal[i].key != k; }
      AfterUntouched(wal[..n], base, k);
    }
  }

  lemma AfterSnoc(wal: seq<Op>, op: Op, base: Option<Text>, k: Key)
    ensures After(wal + [op], base, k) == if op.key == k then Effect(op) else After(wal, base, k)
    ensures Touched(wal + [op], k) <==> Touched(wal, k) || op.key == k
  {
    assert (wal + [op])[..|wal|] == wal;
    if Touched(wal + [op], k) {
      var i :| 0 <= i < |wal| + 1 && (wal + [op])[i].key == k;
      if i < |wal| { assert wal[i].key == k; }
    }
    if Touched(wal, k) {
      var i :| 0 <= i < |wal| && wal[i].key == k;
      assert (wal + [op])[i].key == k;
    }
    assert (wal + [op])[|wal|] == op;
  }

  // -------------------------------------------------------- what a disk stands for

  ghost predicate RepresentedBy(d: Disk, m: map<Key, Text>, ts: seq<Table>) {
    && Loads(d, ts) && TableSet(ts) && Ordered(ts) && ValidLog(d.wal)
    && forall k :: After(d.wal, Visible(Newest(ts, k)), k) == At(m, k)
  }

  /** Opening the store on disk state d yields map m. */
  ghost predicate Represents(d: Disk, m: map<Key, Text>) {
    exists ts :: RepresentedBy(d, m, ts)
  }

  /** A start on d yields m: d stands for m, or d is blank and its log, if any, replays to m. */
  ghost predicate Opens(d: Disk, m: map<Key, Text>) {
    if d.current.Some? then Represents(d, m)
    else Blank(d) && ValidLog(d.wal) && forall k :: After(d.wal, Visible(Newest([], k)), k) == At(m, k)
  }

  ghost predicate AllRepresent(ds: seq<Disk>, m: map<Key, Text>) {
    forall i :: 0 <= i < |ds| ==> Represents(ds[i], m)
  }

  /** A disk state stands for one map. */
  lemma RepresentsOnce(d: Disk, m: map<Key, Text>, m': map<Key, Text>)
    requires Represents(d, m) && Represents(d, m')
    ensures m == m'
  {
    var ts :| RepresentedBy(d, m, ts);
    var us :| RepresentedBy(d, m', us);
    ListsOnce(d, ts, us);
    forall k ensures At(m, k) == At(m', k) { assert After(d.wal, Visible(Newest(ts, k)), k) == At(m, k); }
    SameMap(m, m');
  }

  /** One more log record is one more operation on the map. */
  lemma AppendRepresents(d: Disk, m: map<Key, Text>, ts: seq<Table>, op: Op)
    requires RepresentedBy(d, m, ts) && ValidOp(op)
    ensures RepresentedBy(d.(wal := d.wal + [op]), Apply(m, op), ts)
  {
    var d' := d.(wal := d.wal + [op]);
    LoadsOtherLog(d, d', ts);
    forall k ensures After(d'.wal, Visible(Newest(ts, k)), k) == At(Apply(m, op), k) {
      AfterSnoc(d.wal, op, Visible(Newest(ts, k)), k);
    }
  }

  lemma LoadsOtherLog(d: Disk, d': Disk, ts: seq<Table>)
    requires Loads(d, ts) && d' == d.(wal := d'.wal)
    ensures Loads(d', ts) && NextOf(d') == NextOf(d)
  {
    var m := d.manifests[d.current.value];
    forall i | 0 <= i < |ts| ensures Listed(d', ts[i], m.tables[i]) { assert Listed(d, ts[i], m.tables[i]); }
  }

  // ----------------------------------------------------- memory, tables and the log

  /** The read path: memory first, then the newest of the tables. */
  function Over(layers: seq<seq<Record>>, ts: seq<Table>, k: Key): Option<Entry> {
    if M.FirstHit(layers, k).Some? then M.FirstHit(layers, k) else Newest(ts, k)
  }

  /** How memory, tables, log and map fit together. */
  ghost predicate Agrees(layers: seq<seq<Record>>, ts: seq<Table>, m: map<Key, Text>) {
    forall k :: Visible(Over(layers, ts, k)) == At(m, k)
  }

  ghost predicate Covered(layers: seq<seq<Record>>, wal: seq<Op>) {
    forall k :: M.FirstHit(layers, k).Some? ==> Touched(wal, k)
  }

  ghost predicate Logged(wal: seq<Op>, m: map<Key, Text>) {
    forall k :: Touched(wal, k) ==> After(wal, None, k) == At(m, k)
  }

  /** Numbers in memory are above all numbers in the tables. */
  ghost predicate Above(layers: seq<seq<Record>>, ts: seq<Table>) {
    forall n: nat, k, e :: M.Numbers(layers, n) && Held(ts, k, e) ==> e.seqno < n
  }

  ghost predicate Ceiling(ts: seq<Table>, high: nat) {
    forall k, e :: Held(ts, k, e) ==> e.seqno <= high
  }

  ghost predicate Coherent(layers: seq<seq<Record>>, ts: seq<Table>, wal: seq<Op>, m: map<Key, Text>) {
    Agrees(layers, ts, m) && Covered(layers, wal) && Logged(wal, m) && Above(layers, ts) && ValidLog(wal)
  }

  /** The disk stands for the map, whatever part of it is still only in memory and in the log. */
  lemma CoherentRepresents(d: Disk, layers: seq<seq<Record>>, ts: seq<Table>, m: map<Key, Text>)
    requires Coherent(layers, ts, d.wal, m) && Loads(d, ts) && TableSet(ts) && Ordered(ts)
    ensures RepresentedBy(d, m, ts)
  {
    forall k ensures After(d.wal, Visible(Newest(ts, k)), k) == At(m, k) {
      if Touched(d.wal, k) {
        AfterTouched(d.wal, Visible(Newest(ts, k)), None, k);
      } else {
        AfterUntouched(d.wal, Visible(Newest(ts, k)), k);
        assert Visible(Over(layers, ts, k)) == At(m, k);
      }
    }
  }

  /** The tiered read returns the entry with the greatest number held anywhere. */
  lemma FirstHitOverAll(layers: seq<seq<Record>>, ts: seq<Table>, k: Key)
    requires Above(layers, ts) && M.Descending(layers)
    ensures forall j :: 0 <= j < |layers| && Find(layers[j], k).Some? ==>
              Over(layers, ts, k).Some? && Find(layers[j], k).value.seqno <= Over(layers, ts, k).value.seqno
    ensures forall e :: Held(ts, k, e) ==> Over(layers, ts, k).Some? && e.seqno <= Over(layers, ts, k).value.seqno
  {
    NewestIsMax(ts, k);
    forall j | 0 <= j < |layers| && Find(layers[j], k).Some?
      ensures Over(layers, ts, k).Some? && Find(layers[j], k).value.seqno <= Over(layers, ts, k).value.seqno
    {
      M.FirstHitIsNewest(layers, k, j);
    }
    if M.FirstHit(layers, k).Some? { HitNumber(layers, k); }
  }

  lemma {:induction false} HitNumber(layers: seq<seq<Record>>, k: Key)
    requires M.FirstHit(layers, k).Some?
    ensures M.Numbers(layers, M.FirstHit(layers, k).value.seqno)
  {
    if Find(layers[0], k).Some? {
      M.FoundNumber(layers[0], k);
    } else {
      HitNumber(layers[1..], k);
      var n := M.FirstHit(layers, k).value.seqno;
      var i :| 0 <= i < |layers[1..]| && M.NumberIn(layers[1..][i], n);
      assert M.NumberIn(layers[i + 1], n);
    }
  }

  /** A logged and remembered write is one operation on the map. */
  lemma CoherentWrite(layers: seq<seq<Record>>, layers': seq<seq<Record>>, ts: seq<Table>, wal: seq<Op>, m: map<Key, Text>, op: Op, e: Entry, high: nat)
    requires Coherent(layers, ts, wal, m) && ValidOp(op) && Visible(Some(e)) == Effect(op)
    requires forall q :: M.FirstHit(layers', q) == if q == op.key then Some(e) else M.FirstHit(layers, q)
    requires forall n: nat :: M.Numbers(layers', n) ==> M.Numbers(layers, n) || n == high + 1
    requires Ceiling(ts, high)
    ensures Coherent(layers', ts, wal + [op], Apply(m, op))
  {
    var wal', m' := wal + [op], Apply(m, op);
    forall k ensures Visible(Over(layers', ts, k)) == At(m', k) { assert Visible(Over(layers, ts, k)) == At(m, k); }
    forall k ensures (M.FirstHit(layers', k).Some? ==> Touched(wal', k)) && (Touched(wal', k) ==> After(wal', None, k) == At(m', k)) {
      AfterSnoc(wal, op, None, k);
    }
  }

  /** A record that changes nothing needs no memory entry: deleting what is not there. */
  lemma CoherentIdle(layers: seq<seq<Record>>, ts: seq<Table>, wal: seq<Op>, m: map<Key, Text>, k: Key)
    requires Coherent(layers, ts, wal, m) && k !in m && M.ValidKey(k)
    ensures Coherent(layers, ts, wal + [Delete(k)], m) && Apply(m, Delete(k)) == m
  {
    var wal' := wal + [Delete(k)];
    assert m - {k} == m;
    forall q ensures (M.FirstHit(layers, q).Some? ==> Touched(wal', q)) && (Touched(wal', q) ==> After(wal', None, q) == At(m, q)) {
      AfterSnoc(wal, Delete(k), None, q);
    }
  }

  lemma CoherentRotate(layers: seq<seq<Record>>, layers': seq<seq<Record>>, ts: seq<Table>, wal: seq<Op>, m: map<Key, Text>)
    requires Coherent(layers, ts, wal, m)
    requires forall q :: M.FirstHit(layers', q) == M.FirstHit(layers, q)
    requires forall n: nat :: M.Numbers(layers', n) ==> M.Numbers(layers, n)
    ensures Coherent(layers', ts, wal, m)
  {
    forall k ensures Visible(Over(layers', ts, k)) == At(m, k) { assert Visible(Over(layers, ts, k)) == At(m, k); }
  }

  /** Moving the oldest layer of memory into the tables changes nothing that is read. */
  lemma CoherentFlush(layers: seq<seq<Record>>, ts: seq<Table>, ts': seq<Table>, wal: seq<Op>, m: map<Key, Text>)
    requires Coherent(layers, ts, wal, m) && M.Descending(layers) && |layers| > 1
    requires forall k :: Newest(ts', k) == Better(Newest(ts, k), Find(layers[|layers| - 1], k))
    requires forall k, e :: Held(ts', k, e) <==> Held(ts, k, e) || Find(layers[|layers| - 1], k) == Some(e)
    ensures Coherent(layers[..|layers| - 1], ts', wal, m)
  {
    var n, rest, rs := |layers| - 1, layers[..|layers| - 1], layers[|layers| - 1];
    assert layers == rest + [rs];
    forall k ensures Over(rest, ts', k) == Over(layers, ts, k) && (M.FirstHit(rest, k).Some? ==> M.FirstHit(layers, k).Some?) {
      M.FirstHitSplit(rest, [rs], k);
      LastLayer(rs, k);
      if Find(rs, k).Some? { OldestAbove(layers, ts, k); }
    }
    forall k ensures Visible(Over(rest, ts', k)) == At(m, k) { assert Visible(Over(layers, ts, k)) == At(m, k); }
    forall a: nat, k, e | M.Numbers(rest, a) && Held(ts', k, e) ensures e.seqno < a {
      NumbersKept(layers, a);
      if Find(rs, k) == Some(e) { RestAbove(layers, a, k); }
    }
  }

  lemma LastLayer(rs: seq<Record>, k: Key)
    ensures M.FirstHit([rs], k) == Find(rs, k)
  {
    assert [rs][1..] == [];
    assert M.FirstHit([], k) == None;
  }

  lemma OldestAbove(layers: seq<seq<Record>>, ts: seq<Table>, k: Key)
    requires Above(layers, ts) && |layers| > 0 && Find(layers[|layers| - 1], k).Some?
    ensures Better(Newest(ts, k), Find(layers[|layers| - 1], k)) == Find(layers[|layers| - 1], k)
  {
    NewestIsMax(ts, k);
    M.FoundNumber(layers[|layers| - 1], k);
    assert M.Numbers(layers, Find(layers[|layers| - 1], k).value.seqno);
  }

  lemma NumbersKept(layers: seq<seq<Record>>, n: nat)
    requires |layers| > 0 && M.Numbers(layers[..|layers| - 1], n)
    ensures M.Numbers(layers, n)
  {
    var i :| 0 <= i < |layers| - 1 && M.NumberIn(layers[..|layers| - 1][i], n);
    assert M.NumberIn(layers[i], n);
  }

  lemma RestAbove(layers: seq<seq<Record>>, n: nat, k: Key)
    requires M.Descending(layers) && |layers| > 0 && M.Numbers(layers[..|layers| - 1], n) && Find(layers[|layers| - 1], k).Some?
    ensures Find(layers[|layers| - 1], k).value.seqno < n
  {
    var i :| 0 <= i < |layers| - 1 && M.NumberIn(layers[..|layers| - 1][i], n);
    assert M.NumberIn(layers[i], n);
    M.FoundNumber(layers[|layers| - 1], k);
  }

  /** Tables that show the same map and hold nothing new may replace the old ones. */
  lemma CoherentCompact(layers: seq<seq<Record>>, ts: seq<Table>, ts': seq<Table>, wal: seq<Op>, m: map<Key, Text>, seen: map<Key, Text>)
    requires Coherent(layers, ts, wal, m) && Reflects(ts, seen) && Reflects(ts', seen)
    requires forall k, e :: Held(ts', k, e) ==> Held(ts, k, e)
    ensures Coherent(layers, ts', wal, m)
  {
    forall k ensures Visible(Over(layers, ts', k)) == At(m, k) {
      assert Visible(Newest(ts, k)) == At(seen, k) == Visible(Newest(ts', k));
      assert Visible(Over(layers, ts, k)) == At(m, k);
    }
  }

  /** With nothing left in memory the log may be emptied. */
  lemma CoherentReset(layers: seq<seq<Record>>, ts: seq<Table>, wal: seq<Op>, m: map<Key, Text>)
    requires Coherent(layers, ts, wal, m) && forall k :: M.FirstHit(layers, k) == None
    ensures Coherent(layers, ts, [], m)
  {}

  lemma RepresentBetween(ds: seq<Disk>, layers: seq<seq<Record>>, layers': seq<seq<Record>>, wal: seq<Op>,
                         ts: seq<Table>, ts': seq<Table>, m: map<Key, Text>)
    requires Between(ds, wal, ts, ts')
    requires Coherent(layers, ts, wal, m) && TableSet(ts) && Ordered(ts)
    requires Coherent(layers', ts', wal, m) && TableSet(ts') && Ordered(ts')
    ensures AllRepresent(ds, m)
  {
    hide Coherent, TableSet, Ordered, Loads, RepresentedBy;
    forall i | 0 <= i < |ds| ensures Represents(ds[i], m) {
      if Loads(ds[i], ts) {
        CoherentRepresents(ds[i], layers, ts, m);
      } else {
        CoherentRepresents(ds[i], layers', ts', m);
      }
    }
  }

  lemma RepresentJoin(t0: seq<Disk>, t1: seq<Disk>, t2: seq<Disk>, m: map<Key, Text>)
    requires t0 <= t1 <= t2 && AllRepresent(t1[|t0|..], m) && AllRepresent(t2[|t1|..], m)
    ensures t0 <= t2 && AllRepresent(t2[|t0|..], m)
  {
    hide Represents;
    var n := |t0|;
    forall i | 0 <= i < |t2| - n ensures Represents(t2[n..][i], m) {
      if n + i < |t1| { assert t2[n + i] == t1[n..][i]; } else { assert t2[n + i] == t2[|t1|..][n + i - |t1|]; }
    }
  }

  lemma RepresentOne(t0: seq<Disk>, t1: seq<Disk>, d: Disk, m: map<Key, Text>)
    requires t1 == t0 + [d] && Represents(d, m)
    ensures AllRepresent(t1[|t0|..], m)
  {
    assert t1[|t0|..] == [d];
  }

  lemma RepresentNone(t: seq<Disk>, m: map<Key, Text>)
    ensures AllRepresent(t[|t|..], m)
  {}

  /** One of these layers of memory has the entry. */
  ghost predicate InMemory(layers: seq<seq<Record>>, k: Key, e: Entry) {
    exists i :: 0 <= i < |layers| && Find(layers[i], k) == Some(e)
  }

  lemma InMemoryPush(rs: seq<Record>, layers: seq<seq<Record>>, k: Key, e: Entry)
    ensures InMemory([rs] + layers, k, e) <==> Find(rs, k) == Some(e) || InMemory(layers, k, e)
  {
    if InMemory([rs] + layers, k, e) {
      var i :| 0 <= i < |[rs] + layers| && Find(([rs] + layers)[i], k) == Some(e);
      if i > 0 { assert Find(layers[i - 1], k) == Some(e); }
    }
    if Find(rs, k) == Some(e) { assert Find(([rs] + layers)[0], k) == Some(e); }
    if InMemory(layers, k, e) {
      var i :| 0 <= i < |layers| && Find(layers[i], k) == Some(e);
      assert Find(([rs] + layers)[i + 1], k) == Some(e);
    }
  }

  /** The frozen tables from position i on, one more of them. */
  lemma FrozenMore(fs: seq<M.Frozen>, i: nat, k: Key, e: Entry)
    requires i < |fs|
    ensures InMemory(M.RecordsOf(fs[i..]), k, e) <==> Find(fs[i].records, k) == Some(e) || InMemory(M.RecordsOf(fs[i + 1..]), k, e)
  {
    assert M.RecordsOf(fs[i..]) == [fs[i].records] + M.RecordsOf(fs[i + 1..]);
    InMemoryPush(fs[i].records, M.RecordsOf(fs[i + 1..]), k, e);
  }

  lemma NoFrozen(fs: seq<M.Frozen>)
    ensures forall k, e :: !InMemory(M.RecordsOf(fs[|fs|..]), k, e)
  {}

  lemma RotatedMemory(active: seq<Record>, frozen: seq<M.Frozen>, after: seq<M.Frozen>, k: Key, e: Entry)
    requires after == frozen || exists g :: after == [M.Frozen(g, active)] + frozen
    requires after == frozen ==> active == []
    ensures InMemory(M.RecordsOf(after), k, e) <==> InMemory([active] + M.RecordsOf(frozen), k, e)
  {
    InMemoryPush(active, M.RecordsOf(frozen), k, e);
    if after != frozen { assert M.RecordsOf(after) == [active] + M.RecordsOf(frozen); }
  }

  lemma SomeOfLevel(ts: seq<Table>, t: Table)
    requires t in ts
    ensures OfLevel(ts, t.level) != []
  {
    OfLevelMembers(ts, t.level);
  }

  /** Level-0 tables left of n when compactions of at most maxTables run until they are below the trigger. */
  function Relieved(n: nat, trigger: nat, maxTables: nat): (r: nat)
    requires 2 <= trigger <= maxTables
    ensures r < trigger && r <= n
  {
    if n < trigger then n else Relieved(Left(n, trigger, maxTables, false), trigger, maxTables)
  }

  // -------------------------------------------------------------------- the store

  datatype Answer<+T> = Rejected | Got(value: T)

  class KeyValueStore {
    const dir: Directory
    const tables: SSTableManager
    const mem: M.MemTableSet
    const automatic: bool
    var live: nat
    ghost var model: map<Key, Text>

    ghost predicate Valid()
      reads this, dir, tables, mem, mem.active
    {
      && tables.dir == dir && tables.Valid() && mem.Valid()
      && Coherent(mem.Layers(), tables.readers, dir.wal, model)
      && Ceiling(tables.readers, mem.lastSequence)
      && live == |model|
    }

    // ----------------------------------------------------------------- reading

    method LatestEntry(k: Key) returns (e: Option<Entry>)
      requires Valid()
      ensures e == Over(mem.Layers(), tables.readers, k) && Visible(e) == At(model, k)
    {
      assert Visible(Over(mem.Layers(), tables.readers, k)) == At(model, k);
      e := mem.LatestEntry(k);
      if e.None? {
        e := NewestIn(tables.readers, k);
      }
    }

    /** A read is a lookup in the map. */
    method Get(k: Key) returns (r: Answer<Option<Text>>)
      requires Valid()
      ensures r == if M.ValidKey(k) then Got(At(model, k)) else Rejected
    {
      if !M.ValidKey(k) {
        return Rejected;
      }
      var e := LatestEntry(k);
      r := Got(if e.None? || e.value.deleted then None else Some(e.value.value));
    }

    /** The running count is the size of the map. */
    method Size() returns (n: nat)
      requires Valid()
      ensures n == |model|
    {
      n := live;
    }

    // ------------------------------------------------------- flush, compact, reset

    constructor (dir: Directory, tables: SSTableManager, mem: M.MemTableSet, automatic: bool, live: nat, ghost model: map<Key, Text>)
      requires tables.dir == dir && tables.Valid() && mem.Valid()
      requires Coherent(mem.Layers(), tables.readers, dir.wal, model) && Ceiling(tables.readers, mem.lastSequence) && live == |model|
      ensures Valid() && this.dir == dir && this.tables == tables && this.mem == mem && this.automatic == automatic && this.model == model
    {
      this.dir, this.tables, this.mem, this.automatic := dir, tables, mem, automatic;
      this.live, this.model := live, model;
    }

    /** Flush every frozen memtable, oldest first. */
    method FlushImmutables()
      requires Valid()
      modifies this, dir, tables, mem`immutables
      ensures Valid() && mem.immutables == [] && model == old(model) && live == old(live) && dir.wal == old(dir.wal)
      ensures forall k, e :: Held(tables.readers, k, e) <==> old(Held(tables.readers, k, e)) || InMemory(M.RecordsOf(old(mem.immutables)), k, e)
      ensures OfLevel(tables.readers, Level0) != [] <==> OfLevel(old(tables.readers), Level0) != [] || old(mem.immutables) != []
      ensures old(dir.trail) <= dir.trail && AllRepresent(dir.trail[|old(dir.trail)|..], model)
    {
      hide Coherent, Ceiling, TableSet, Loads, Reflects, AllRepresent, M.Descending, M.Within, M.FrozenOk, Held, InMemory, OfLevel;
      RepresentNone(dir.trail, model);
      var flushing := mem.immutables;
      var i := |flushing|;
      NoFrozen(flushing);
      while i > 0
        invariant 0 <= i <= |flushing| && mem.immutables == flushing[..i]
        invariant Valid() && model == old(model) && live == old(live) && dir.wal == old(dir.wal)
        invariant forall k, e :: Held(tables.readers, k, e) <==> old(Held(tables.readers, k, e)) || InMemory(M.RecordsOf(flushing[i..]), k, e)
        invariant OfLevel(tables.readers, Level0) != [] <==> OfLevel(old(tables.readers), Level0) != [] || i < |flushing|
        invariant old(dir.trail) <= dir.trail && AllRepresent(dir.trail[|old(dir.trail)|..], model)
      {
        ghost var t0 := dir.trail;
        FlushOldest();
        forall k, e ensures InMemory(M.RecordsOf(flushing[i - 1..]), k, e) <==>
                              Find(flushing[i - 1].records, k) == Some(e) || InMemory(M.RecordsOf(flushing[i..]), k, e)
        {
          FrozenMore(flushing, i - 1, k, e);
        }
        RepresentJoin(old(dir.trail), t0, dir.trail, model);
        assert flushing[..i][..i - 1] == flushing[..i - 1];
        i := i - 1;
      }
      assert flushing[0..] == flushing;
    }

    method FlushOldest()
      requires Valid() && |mem.immutables| > 0
      modifies this, dir, tables, mem`immutables
      ensures Valid() && mem.immutables == old(mem.immutables)[..|old(mem.immutables)| - 1]
      ensures forall k, e :: Held(tables.readers, k, e) <==>
                old(Held(tables.readers, k, e)) || Find(old(mem.immutables)[|old(mem.immutables)| - 1].records, k) == Some(e)
      ensures OfLevel(tables.readers, Level0) != []
      ensures model == old(model) && live == old(live) && dir.wal == old(dir.wal)
      ensures old(dir.trail) <= dir.trail && AllRepresent(dir.trail[|old(dir.trail)|..], model)
    {
      hide TableSet, Loads, Reflects, AllRepresent, Between, M.Descending, M.Within, M.FrozenOk;
      ghost var layers, before := mem.Layers(), tables.readers;
      var t := mem.immutables[|mem.immutables| - 1];
      assert layers[|layers| - 1] == t.records;
      OldestIsFlushable(mem, tables.readers);
      ghost var flushed := Table(tables.nextFileId, Level0, t.generation, t.records);
      var ok := tables.Flush(t.records, t.generation);
      SomeOfLevel(tables.readers, flushed);
      var found; ghost var at;
      found, at := mem.DiscardImmutable(t.generation);
      LastGeneration(old(mem.immutables), mem.active.generation, at);
      assert mem.Layers() == layers[..|layers| - 1];
      CoherentFlush(layers, before, tables.readers, dir.wal, model);
      CeilingFlush(layers, before, tables.readers, mem.floor, mem.lastSequence);
      RepresentBetween(dir.trail[|old(dir.trail)|..], layers, mem.Layers(), dir.wal, before, tables.readers, model);
    }

    method CompactOnce(force: bool) returns (performed: bool)
      requires Valid()
      modifies this, dir, tables
      ensures Valid() && model == old(model) && live == old(live) && dir.wal == old(dir.wal)
      ensures performed <==> |OfLevel(old(tables.readers), Level0)| >= if force then 1 else tables.trigger
      ensures |OfLevel(tables.readers, Level0)| == Left(|OfLevel(old(tables.readers), Level0)|, tables.trigger, tables.maxTables, force)
      ensures forall k, e :: Held(tables.readers, k, e) ==> old(Held(tables.readers, k, e))
      ensures old(dir.trail) <= dir.trail && AllRepresent(dir.trail[|old(dir.trail)|..], model)
    {
      hide TableSet, Loads, Reflects, AllRepresent, Between, M.Descending, M.Within, M.FrozenOk, Picked, Replaced;
      ghost var before := tables.readers;
      ghost var selected, unselected;
      performed, selected, unselected := tables.CompactLevel0(force);
      CoherentCompact(mem.Layers(), before, tables.readers, dir.wal, model, tables.visible);
      RepresentBetween(dir.trail[|old(dir.trail)|..], mem.Layers(), mem.Layers(), dir.wal, before, tables.readers, model);
    }

    /** The automatic compaction loop ends, with as many level-0 tables as the runs it needs leave; it does
        nothing while level 0 is below the trigger. */
    method CompactIfRequired()
      requires Valid()
      modifies this, dir, tables
      ensures Valid() && model == old(model) && live == old(live) && dir.wal == old(dir.wal)
      ensures automatic ==> |OfLevel(tables.readers, Level0)| == Relieved(|OfLevel(old(tables.readers), Level0)|, tables.trigger, tables.maxTables)
      ensures !automatic || |OfLevel(old(tables.readers), Level0)| < tables.trigger ==> tables.readers == old(tables.readers)
      ensures forall k, e :: Held(tables.readers, k, e) ==> old(Held(tables.readers, k, e))
      ensures old(dir.trail) <= dir.trail && AllRepresent(dir.trail[|old(dir.trail)|..], model)
    {
      hide Coherent, Ceiling, TableSet, Loads, Reflects, AllRepresent, M.Descending, M.Within, M.FrozenOk;
      RepresentNone(dir.trail, model);
      if !automatic {
        return;
      }
      while tables.NeedsCompaction()
        invariant Valid() && model == old(model) && live == old(live) && dir.wal == old(dir.wal)
        invariant old(dir.trail) <= dir.trail && AllRepresent(dir.trail[|old(dir.trail)|..], model)
        invariant |OfLevel(tables.readers, Level0)| <= |OfLevel(old(tables.readers), Level0)|
        invariant |OfLevel(tables.readers, Level0)| == |OfLevel(old(tables.readers), Level0)| ==> tables.readers == old(tables.readers)
        invariant Relieved(|OfLevel(tables.readers, Level0)|, tables.trigger, tables.maxTables)
                  == Relieved(|OfLevel(old(tables.readers), Level0)|, tables.trigger, tables.maxTables)
        invariant forall k, e :: Held(tables.readers, k, e) ==> old(Held(tables.readers, k, e))
        decreases |OfLevel(tables.readers, Level0)|
      {
        ghost var t0 := dir.trail;
        var performed := CompactOnce(false);
        RepresentJoin(old(dir.trail), t0, dir.trail, model);
        if !performed {
          break;
        }
      }
    }

    method EmptyLog()
      requires Valid() && mem.active.entries == [] && mem.immutables == []
      modifies this, dir
      ensures Valid() && model == old(model) && live == old(live) && dir.wal == []
      ensures old(dir.trail) <= dir.trail && AllRepresent(dir.trail[|old(dir.trail)|..], model)
    {
      hide TableSet, Loads, Reflects, M.Descending, M.Within, M.FrozenOk, RepresentedBy;
      ghost var d0, t0 := dir.Now(), dir.trail;
      forall k ensures M.FirstHit(mem.Layers(), k) == None { NoLayers(mem.Layers(), k); }
      dir.ResetWal();
      LoadsOtherLog(d0, dir.Now(), tables.readers);
      CoherentReset(mem.Layers(), tables.readers, d0.wal, model);
      CoherentRepresents(dir.Now(), mem.Layers(), tables.readers, model);
      RepresentOne(t0, dir.trail, dir.Now(), model);
    }

    method ResetIfPersisted()
      requires Valid()
      modifies this, dir
      ensures Valid() && model == old(model) && live == old(live)
      ensures dir.wal == if mem.active.entries == [] && mem.immutables == [] then [] else old(dir.wal)
      ensures old(dir.trail) <= dir.trail && AllRepresent(dir.trail[|old(dir.trail)|..], model)
    {
      RepresentNone(dir.trail, model);
      if |mem.active.entries| == 0 && |mem.immutables| == 0 {
        EmptyLog();
      }
    }

    /** What every write leaves: nothing frozen, level 0 below the trigger if compaction is automatic. */
    ghost predicate Tidy()
      reads this, tables, mem
    {
      mem.immutables == [] && (automatic ==> |OfLevel(tables.readers, Level0)| < tables.trigger)
    }

    /** What follows every write: flush, compact, and empty the log if nothing is left in memory. */
    method Settle()
      requires Valid()
      modifies this, dir, tables, mem`immutables
      ensures Valid() && Tidy() && model == old(model) && live == old(live)
      ensures dir.wal == if mem.active.entries == [] then [] else old(dir.wal)
      ensures old(dir.trail) <= dir.trail && AllRepresent(dir.trail[|old(dir.trail)|..], model)
    {
      hide Coherent, Ceiling, TableSet, Loads, Reflects, AllRepresent, M.Descending, M.Within, M.FrozenOk;
      ghost var t0 := dir.trail;
      FlushImmutables();
      ghost var t1 := dir.trail;
      CompactIfRequired();
      RepresentJoin(t0, t1, dir.trail, model);
      ghost var t2 := dir.trail;
      ResetIfPersisted();
      RepresentJoin(t0, t2, dir.trail, model);
    }

    // ------------------------------------------------------------------- writing

    /** Log one operation, then do it in memory. */
    method LogAndWrite(op: Op)
      requires Valid() && ValidOp(op)
      modifies this, dir, tables, mem, mem.active
      ensures Valid() && model == Apply(old(model), op) && (mem.active == old(mem.active) || fresh(mem.active))
      ensures dir.wal == old(dir.wal) + [op] && mem.lastSequence == old(mem.lastSequence) + 1
      ensures old(dir.trail) <= dir.trail && AllRepresent(dir.trail[|old(dir.trail)|..], model)
    {
      hide TableSet, Loads, Reflects, Ordered, HighSeq, HighGeneration, M.Descending, M.Within, M.FrozenOk, RepresentedBy, Coherent, Ceiling, AllRepresent,
        Apply, Over, ValidLog, ValidOp;
      ghost var d0, t0 := dir.Now(), dir.trail;
      CoherentRepresents(d0, mem.Layers(), tables.readers, model);
      var latest := LatestEntry(op.key);
      dir.AppendWal(op);
      LoadsOtherLog(d0, dir.Now(), tables.readers);
      AppendRepresents(d0, model, tables.readers, op);
      RepresentOne(t0, dir.trail, dir.Now(), Apply(model, op));
      live := Remember(op, latest.Some? && !latest.value.deleted, mem, live, tables.readers, d0.wal, model);
      model := Apply(model, op);
    }

    /** The part of a write that happens in memory. */
    static method Remember(op: Op, wasLive: bool, mem: M.MemTableSet, live: nat, ghost ts: seq<Table>, ghost wal: seq<Op>, ghost m: map<Key, Text>)
      returns (live': nat)
      requires mem.Valid() && ValidOp(op) && Coherent(mem.Layers(), ts, wal, m) && Ceiling(ts, mem.lastSequence)
      requires live == |m| && (wasLive <==> op.key in m)
      modifies mem, mem.active
      ensures mem.Valid() && (mem.active == old(mem.active) || fresh(mem.active)) && mem.lastSequence == old(mem.lastSequence) + 1
      ensures Coherent(mem.Layers(), ts, wal + [op], Apply(m, op)) && Ceiling(ts, mem.lastSequence) && live' == |Apply(m, op)|
    {
      hide M.Descending, M.FrozenOk, M.Within, Coherent, Ceiling;
      ghost var layers, high := mem.Layers(), mem.lastSequence;
      var r := mem.Write(op.key, if op.Put? then op.value else [], op.Delete?);
      ghost var e := Entry(if op.Delete? then [] else op.value, mem.lastSequence, op.Delete?);
      CoherentWrite(layers, mem.Layers(), ts, wal, m, op, e, high);
      CeilingRises(ts, high, mem.lastSequence);
      ApplySize(m, op);
      live' := live;
      if op.Put? && !wasLive {
        live' := live + 1;
      } else if op.Delete? && wasLive {
        live' := live - 1;
      }
    }

    /** Put: on return, and at every durable step after the log record, the disk stands for the map
        with the new value; before that record it stands for the old map. The log has one more record,
        unless the write filled the memtable and so left nothing in memory. */
    method Put(k: Key, v: Text) returns (r: Answer<()>)
      requires Valid()
      modifies this, dir, tables, mem, mem.active
      ensures Valid() && (mem.active == old(mem.active) || fresh(mem.active))
      ensures r.Got? <==> M.ValidKey(k) && M.ValidValue(v)
      ensures model == if r.Got? then old(model)[k := v] else old(model)
      ensures r.Got? ==> Tidy() && mem.lastSequence == old(mem.lastSequence) + 1
      ensures r.Got? ==> dir.wal == if mem.active.entries == [] then [] else old(dir.wal) + [Op.Put(k, v)]
      ensures r.Rejected? ==> dir.trail == old(dir.trail)
      ensures old(dir.trail) <= dir.trail && AllRepresent(dir.trail[|old(dir.trail)|..], model)
    {
      hide Coherent, Ceiling, TableSet, Loads, Reflects, AllRepresent, M.Descending, M.Within, M.FrozenOk;
      RepresentNone(dir.trail, model);
      if !M.ValidKey(k) || !M.ValidValue(v) {
        return Rejected;
      }
      ghost var t0 := dir.trail;
      LogAndWrite(Op.Put(k, v));
      ghost var t1 := dir.trail;
      Settle();
      RepresentJoin(t0, t1, dir.trail, model);
      r := Got(());
    }

    /** Remove: deleting an absent key writes nothing. */
    method Remove(k: Key) returns (r: Answer<bool>)
      requires Valid()
      modifies this, dir, tables, mem, mem.active
      ensures Valid() && (mem.active == old(mem.active) || fresh(mem.active))
      ensures r == if M.ValidKey(k) then Got(k in old(model)) else Rejected
      ensures model == if r.Got? then old(model) - {k} else old(model)
      ensures r != Got(true) ==> dir.trail == old(dir.trail)
      ensures r == Got(true) ==> Tidy() && mem.lastSequence == old(mem.lastSequence) + 1
      ensures r == Got(true) ==> dir.wal == if mem.active.entries == [] then [] else old(dir.wal) + [Delete(k)]
      ensures old(dir.trail) <= dir.trail && AllRepresent(dir.trail[|old(dir.trail)|..], model)
    {
      hide Coherent, Ceiling, TableSet, Loads, Reflects, AllRepresent, M.Descending, M.Within, M.FrozenOk;
      RepresentNone(dir.trail, model);
      if !M.ValidKey(k) {
        return Rejected;
      }
      var latest := LatestEntry(k);
      if latest.None? || latest.value.deleted {
        assert model - {k} == model;
        return Got(false);
      }
      ghost var t0 := dir.trail;
      LogAndWrite(Delete(k));
      ghost var t1 := dir.trail;
      Settle();
      RepresentJoin(t0, t1, dir.trail, model);
      r := Got(true);
    }

    /** Rotate the active table and flush everything: the tables hold what they held and all that was in
        memory. */
    method FlushAll()
      requires Valid()
      modifies this, dir, tables, mem, mem.active
      ensures Valid() && (mem.active == old(mem.active) || fresh(mem.active))
      ensures mem.active.entries == [] && mem.immutables == [] && model == old(model)
      ensures forall k, e :: Held(tables.readers, k, e) <==> old(Held(tables.readers, k, e)) || InMemory(old(mem.Layers()), k, e)
      ensures OfLevel(tables.readers, Level0) != [] <==>
                OfLevel(old(tables.readers), Level0) != [] || old(mem.active.entries) != [] || old(mem.immutables) != []
      ensures old(dir.trail) <= dir.trail && AllRepresent(dir.trail[|old(dir.trail)|..], model)
    {
      hide Coherent, Ceiling, TableSet, Loads, Reflects, AllRepresent, M.Descending, M.Within, M.FrozenOk, Held, InMemory, OfLevel;
      ghost var layers, active, frozen := mem.Layers(), mem.active.entries, mem.immutables;
      var rotated := mem.RotateActive();
      forall k, e ensures InMemory(M.RecordsOf(mem.immutables), k, e) <==> InMemory(layers, k, e) {
        RotatedMemory(active, frozen, mem.immutables, k, e);
      }
      CoherentRotate(layers, mem.Layers(), tables.readers, dir.wal, model);
      FlushImmutables();
    }

    /** Checkpoint: everything in tables, the log empty, the map as it was throughout. */
    method Checkpoint()
      requires Valid()
      modifies this, dir, tables, mem, mem.active
      ensures Valid() && (mem.active == old(mem.active) || fresh(mem.active)) && model == old(model) && dir.wal == []
      ensures Tidy() && mem.active.entries == []
      ensures forall k, e :: Held(tables.readers, k, e) ==> old(Held(tables.readers, k, e)) || InMemory(old(mem.Layers()), k, e)
      ensures !automatic ==> forall k, e :: old(Held(tables.readers, k, e)) || InMemory(old(mem.Layers()), k, e) ==> Held(tables.readers, k, e)
      ensures old(dir.trail) <= dir.trail && AllRepresent(dir.trail[|old(dir.trail)|..], model)
    {
      hide Coherent, Ceiling, TableSet, Loads, Reflects, AllRepresent, M.Descending, M.Within, M.FrozenOk;
      ghost var t0 := dir.trail;
      FlushAll();
      ghost var t1 := dir.trail;
      CompactIfRequired();
      RepresentJoin(t0, t1, dir.trail, model);
      ghost var t2 := dir.trail;
      EmptyLog();
      RepresentJoin(t0, t2, dir.trail, model);
    }

    /** The forced compaction: nothing is left in memory, in the log or on level 0, and the tables hold
        nothing that was not there. It has something to do exactly when there was something in memory or
        on level 0. */
    method Compact() returns (performed: bool)
      requires Valid()
      modifies this, dir, tables, mem, mem.active
      ensures Valid() && (mem.active == old(mem.active) || fresh(mem.active)) && model == old(model) && dir.wal == []
      ensures mem.active.entries == [] && mem.immutables == [] && OfLevel(tables.readers, Level0) == []
      ensures performed <==> OfLevel(old(tables.readers), Level0) != [] || old(mem.active.entries) != [] || old(mem.immutables) != []
      ensures forall k, e :: Held(tables.readers, k, e) ==> old(Held(tables.readers, k, e)) || InMemory(old(mem.Layers()), k, e)
      ensures old(dir.trail) <= dir.trail && AllRepresent(dir.trail[|old(dir.trail)|..], model)
    {
      hide Coherent, Ceiling, TableSet, Loads, Reflects, AllRepresent, M.Descending, M.Within, M.FrozenOk;
      ghost var t0 := dir.trail;
      FlushAll();
      ghost var t1 := dir.trail;
      performed := CompactOnce(true);
      RepresentJoin(t0, t1, dir.trail, model);
      ghost var t2 := dir.trail;
      ResetIfPersisted();
      RepresentJoin(t0, t2, dir.trail, model);
    }

    // ------------------------------------------------------------------ recovery

    /** Replay the whole log over the tables, including records whose effect the tables already
        have. Deletions of absent keys leave no trace. */
    static method ReplayLog(wal: seq<Op>, tables: SSTableManager, mem: M.MemTableSet) returns (live: nat, ghost m: map<Key, Text>)
      requires tables.Valid() && mem.Valid() && ValidLog(wal)
      requires mem.active.entries == [] && mem.immutables == [] && mem.lastSequence == tables.maxSequence
      modifies mem, mem.active
      ensures mem.Valid() && (mem.active == old(mem.active) || fresh(mem.active))
      ensures Coherent(mem.Layers(), tables.readers, wal, m) && Ceiling(tables.readers, mem.lastSequence) && live == |m|
      ensures forall k :: At(m, k) == After(wal, Visible(Newest(tables.readers, k)), k)
    {
      hide M.Descending, M.FrozenOk, TableSet, Loads;
      live, m := tables.liveKeys, tables.visible;
      StartCoherent(mem.Layers(), tables.readers, m, mem.lastSequence);
      var i := 0;
      while i < |wal|
        invariant 0 <= i <= |wal| && mem.Valid() && (mem.active == old(mem.active) || fresh(mem.active))
        invariant Coherent(mem.Layers(), tables.readers, wal[..i], m) && Ceiling(tables.readers, mem.lastSequence) && live == |m|
        invariant forall k :: At(m, k) == After(wal[..i], Visible(Newest(tables.readers, k)), k)
      {
        live, m := ReplayOne(wal[i], tables, mem, live, wal[..i], m);
        assert wal[..i + 1] == wal[..i] + [wal[i]];
        i := i + 1;
      }
      assert wal[..i] == wal;
    }

    static method ReplayOne(op: Op, tables: SSTableManager, mem: M.MemTableSet, live: nat, ghost wal: seq<Op>, ghost m: map<Key, Text>)
      returns (live': nat, ghost m': map<Key, Text>)
      requires tables.Valid() && mem.Valid() && ValidOp(op)
      requires Coherent(mem.Layers(), tables.readers, wal, m) && Ceiling(tables.readers, mem.lastSequence) && live == |m|
      requires forall k :: At(m, k) == After(wal, Visible(Newest(tables.readers, k)), k)
      modifies mem, mem.active
      ensures mem.Valid() && (mem.active == old(mem.active) || fresh(mem.active))
      ensures m' == Apply(m, op)
      ensures Coherent(mem.Layers(), tables.readers, wal + [op], m') && Ceiling(tables.readers, mem.lastSequence) && live' == |m'|
      ensures forall k :: At(m', k) == After(wal + [op], Visible(Newest(tables.readers, k)), k)
    {
      hide M.Descending, M.FrozenOk, M.Within, Loads, Reflects, Ordered, Distinct, Disjoint1, Ceiling;
      m', live' := Apply(m, op), live;
      forall k ensures At(m', k) == After(wal + [op], Visible(Newest(tables.readers, k)), k) {
        AfterSnoc(wal, op, Visible(Newest(tables.readers, k)), k);
      }
      assert Visible(Over(mem.Layers(), tables.readers, op.key)) == At(m, op.key);
      hide Coherent;
      var latest := mem.LatestEntry(op.key);
      if latest.None? {
        latest := NewestIn(tables.readers, op.key);
      }
      var wasLive := latest.Some? && !latest.value.deleted;
      if op.Delete? && !wasLive {
        CoherentIdle(mem.Layers(), tables.readers, wal, m, op.key);
        return;
      }
      live' := Remember(op, wasLive, mem, live, tables.readers, wal, m);
    }

    /** Open the store on whatever the store's own steps have left: it opens exactly when some map is
        what the directory stands for, and is then that map. Only the very first start, on a blank
        directory, passes through a state that no start accepts. */
    static method Open(dir: Directory, maxBytes: nat, trigger: nat, maxTables: nat, automatic: bool) returns (r: Option<KeyValueStore>)
      requires dir.Valid() && Sound(dir.Now()) && ValidLog(dir.wal) && maxBytes > 0 && 2 <= trigger <= maxTables
      modifies dir
      ensures r.Some? <==> exists m :: Opens(old(dir.Now()), m)
      ensures r.None? ==> dir.trail == old(dir.trail)
      ensures r.Some? ==> Opens(old(dir.Now()), r.value.model) && old(dir.trail) <= dir.trail && dir.wal == old(dir.wal)
      ensures r.Some? ==> fresh(r.value) && r.value.Valid() && r.value.dir == dir
      ensures r.Some? ==> fresh(r.value.tables) && fresh(r.value.mem) && fresh(r.value.mem.active)
      ensures r.Some? && old(dir.current).Some? ==> AllRepresent(dir.trail[|old(dir.trail)|..], r.value.model)
      ensures r.Some? && old(dir.current).None? ==>
                && |dir.trail| == |old(dir.trail)| + 2 && Represents(dir.Now(), r.value.model)
                && forall m :: !Opens(dir.trail[|old(dir.trail)|], m)
    {
      hide TableSet, Loads, Lists, Reflects, M.Descending, M.Within, M.FrozenOk, Coherent, AllRepresent, Between, Ordered, ValidLog, Ceiling,
        Sound, Opens, Refuses, RepresentedBy, After, Newest, Blank;
      ghost var d0 := dir.Now();
      var loaded := SSTableManager.LoadExisting(dir, trigger, maxTables);
      if loaded.None? {
        NothingOpens(d0);
        return None;
      }
      var tables := loaded.value;
      var mem := new M.MemTableSet(maxBytes, tables.maxSequence, tables.nextGeneration);
      var live; ghost var model;
      live, model := ReplayLog(dir.wal, tables, mem);
      if d0.current.Some? {
        LoadedOpens(d0, model, tables.readers);
        StartedRepresents(dir.trail[|old(dir.trail)|..], d0, model, tables.readers);
      } else {
        BlankOpens(d0, model);
        RefusedOpens(dir.trail[|old(dir.trail)|]);
      }
      var s := new KeyValueStore(dir, tables, mem, automatic, live, model);
      CoherentRepresents(dir.Now(), mem.Layers(), tables.readers, model);
      r := Some(s);
    }
  }

  lemma NothingOpens(d: Disk)
    requires !Blank(d) && !exists ts :: Loads(d, ts) && TableSet(ts)
    ensures !exists m :: Opens(d, m)
  {
    hide TableSet;
    forall m, ts ensures !RepresentedBy(d, m, ts) {}
  }

  lemma RefusedOpens(d: Disk)
    requires Refuses(d)
    ensures forall m :: !Opens(d, m)
  {
    RefusedLoads(d);
    NothingOpens(d);
  }

  lemma LoadedOpens(d: Disk, m: map<Key, Text>, ts: seq<Table>)
    requires d.current.Some? && Loads(d, ts) && TableSet(ts) && Ordered(ts) && ValidLog(d.wal)
    requires forall k :: At(m, k) == After(d.wal, Visible(Newest(ts, k)), k)
    ensures RepresentedBy(d, m, ts) && Opens(d, m)
  {
    hide Loads, TableSet, Ordered, ValidLog;
  }

  lemma BlankOpens(d: Disk, m: map<Key, Text>)
    requires Blank(d) && ValidLog(d.wal) && forall k :: At(m, k) == After(d.wal, Visible(Newest([], k)), k)
    ensures Opens(d, m)
  {}

  /** What opens is sound, and opens as one map. */
  lemma OpensSound(d: Disk, m: map<Key, Text>)
    requires Opens(d, m)
    ensures Sound(d) && ValidLog(d.wal) && forall m' :: Opens(d, m') ==> m' == m
  {
    if d.current.Some? {
      var ts :| RepresentedBy(d, m, ts);
      forall us | Lists(d, us) ensures Loads(d, us) && Kin(us) { ListsOnce(d, ts, us); }
      forall m' | Opens(d, m') ensures m' == m { RepresentsOnce(d, m, m'); }
    } else {
      forall m' | Opens(d, m') ensures m' == m {
        forall k ensures At(m, k) == At(m', k) { assert After(d.wal, Visible(Newest([], k)), k) == At(m, k); }
        SameMap(m, m');
      }
    }
  }

  /** A start on a bare disk state: the store is the map the disk stood for. The last clause is about
      the disk after each durable step of the start itself. */
  method Reopen(d: Disk, maxBytes: nat, trigger: nat, maxTables: nat, automatic: bool, ghost m: map<Key, Text>)
    returns (s: KeyValueStore)
    requires Opens(d, m) && maxBytes > 0 && 2 <= trigger <= maxTables
    ensures s.Valid() && s.model == m
    ensures fresh(s) && fresh(s.dir) && fresh(s.tables) && fresh(s.mem) && fresh(s.mem.active)
    ensures [d] <= s.dir.trail && (d.current.Some? ==> AllRepresent(s.dir.trail[1..], m))
  {
    hide Opens, Sound, AllRepresent;
    OpensSound(d, m);
    var dir := new Directory(d);
    var r := KeyValueStore.Open(dir, maxBytes, trigger, maxTables, automatic);
    s := r.value;
  }

  /** Starts that are themselves cut off, each after some of its durable steps, and then one that is not. */
  method ReopenAfter(d: Disk, cuts: seq<nat>, maxBytes: nat, trigger: nat, maxTables: nat, automatic: bool, ghost m: map<Key, Text>)
    returns (s: KeyValueStore)
    requires Represents(d, m) && maxBytes > 0 && 2 <= trigger <= maxTables
    ensures s.Valid() && s.model == m
    ensures fresh(s) && fresh(s.dir) && fresh(s.tables) && fresh(s.mem) && fresh(s.mem.active)
  {
    hide Represents, Opens, TableSet, Loads, Coherent, Reflects, Ceiling;
    var left, i := d, 0;
    while i < |cuts|
      invariant 0 <= i <= |cuts| && Represents(left, m)
    {
      OpensRepresented(left, m);
      var cut := Reopen(left, maxBytes, trigger, maxTables, automatic, m);
      var n := if cuts[i] < |cut.dir.trail| then cuts[i] else |cut.dir.trail| - 1;
      if n > 0 { assert cut.dir.trail[n] == cut.dir.trail[1..][n - 1]; }
      left := cut.dir.trail[n];
      i := i + 1;
    }
    OpensRepresented(left, m);
    s := Reopen(left, maxBytes, trigger, maxTables, automatic, m);
  }

  lemma StartCoherent(layers: seq<seq<Record>>, ts: seq<Table>, m: map<Key, Text>, high: nat)
    requires layers == [[]] && Reflects(ts, m) && high == HighSeq(ts)
    ensures Coherent(layers, ts, [], m) && Ceiling(ts, high)
    ensures forall k :: At(m, k) == After([], Visible(Newest(ts, k)), k)
  {
    forall k ensures M.FirstHit(layers, k) == None { NoLayers(layers, k); }
    forall k, e | Held(ts, k, e) ensures e.seqno <= high { HighSeqBounds(ts, k, e); }
    forall n: nat ensures !M.Numbers(layers, n) { assert !M.NumberIn([], n); }
    forall k ensures At(m, k) == After([], Visible(Newest(ts, k)), k) { assert Visible(Newest(ts, k)) == At(m, k); }
  }

  lemma StartedRepresents(ds: seq<Disk>, d: Disk, m: map<Key, Text>, ts: seq<Table>)
    requires RepresentedBy(d, m, ts) && Between(ds, d.wal, ts, ts)
    ensures AllRepresent(ds, m)
  {
    forall i | 0 <= i < |ds| ensures Represents(ds[i], m) { assert RepresentedBy(ds[i], m, ts); }
  }

  lemma NoLayers(layers: seq<seq<Record>>, k: Key)
    requires layers == [[]]
    ensures M.FirstHit(layers, k) == None
  {
    assert Find([], k) == None && layers[1..] == [];
  }

  lemma CeilingRises(ts: seq<Table>, low: nat, high: nat)
    requires Ceiling(ts, low) && low <= high
    ensures Ceiling(ts, high)
  {}

  lemma ApplySize(m: map<Key, Text>, op: Op)
    ensures |Apply(m, op)| + (if op.Delete? && op.key in m then 1 else 0) == |m| + (if op.Put? && op.key !in m then 1 else 0)
  {
    UpdatedSize(m, op.key, Entry(if op.Put? then op.value else [], 1, op.Delete?));
  }

  lemma LastGeneration(fs: seq<M.Frozen>, generation: nat, at: nat)
    requires M.FrozenOk(fs, generation) && at < |fs| && fs[at].generation == fs[|fs| - 1].generation
    ensures at == |fs| - 1
  {}

  lemma CeilingFlush(layers: seq<seq<Record>>, ts: seq<Table>, ts': seq<Table>, low: nat, high: nat)
    requires Ceiling(ts, high) && M.Within(layers, low, high) && |layers| > 0
    requires forall k, e :: Held(ts', k, e) <==> Held(ts, k, e) || Find(layers[|layers| - 1], k) == Some(e)
    ensures Ceiling(ts', high)
  {
    forall k, e | Held(ts', k, e) ensures e.seqno <= high {
      if Find(layers[|layers| - 1], k) == Some(e) {
        M.FoundNumber(layers[|layers| - 1], k);
        assert M.NumberIn(layers[|layers| - 1], e.seqno);
      }
    }
  }

  lemma OldestIsFlushable(mem: M.MemTableSet, ts: seq<Table>)
    requires mem.Valid() && |mem.immutables| > 0 && Above(mem.Layers(), ts)
    ensures var rs := mem.immutables[|mem.immutables| - 1].records;
            && |rs| > 0 && Sorted(rs) && (forall i :: 0 <= i < |rs| ==> rs[i].entry.seqno > 0)
            && forall k, e, e' :: Held(ts, k, e) && Find(rs, k) == Some(e') ==> e.seqno != e'.seqno
  {
    var layers, rs := mem.Layers(), mem.immutables[|mem.immutables| - 1].records;
    var n := |layers| - 1;
    assert layers[n] == rs;
    forall i | 0 <= i < |rs| ensures rs[i].entry.seqno > 0 { assert M.NumberIn(layers[n], rs[i].entry.seqno); }
    forall k, e, e' | Held(ts, k, e) && Find(rs, k) == Some(e') ensures e.seqno != e'.seqno {
      M.FoundNumber(rs, k);
      assert M.NumberIn(layers[n], e'.seqno);
      assert M.Numbers(layers, e'.seqno);
    }
  }

  // --------------------------------------------------------------- whole sessions

  datatype Action = DoPut(key: Key, value: Text) | DoRemove(key: Key) | DoCheckpoint | DoCompact

  /** An action that returns, or one cut off after some of its durable steps and followed by starts, of
      which all but the last are cut off too. */
  datatype Step = Complete(action: Action) | Crashed(action: Action, steps: nat, starts: seq<nat>)

  function Do(m: map<Key, Text>, a: Action): map<Key, Text> {
    match a
    case DoPut(k, v) => if M.ValidKey(k) && M.ValidValue(v) then m[k := v] else m
    case DoRemove(k) => if M.ValidKey(k) then m - {k} else m
    case _ => m
  }

  /** What is acknowledged stays; the action in flight at a crash may or may not have happened. */
  ghost predicate Follows(m: map<Key, Text>, s: Step, m': map<Key, Text>) {
    match s
    case Complete(a) => m' == Do(m, a)
    case Crashed(a, n, _) => m' == Do(m, a) || (n == 0 && m' == m)
  }

  method Perform(s: KeyValueStore, a: Action)
    requires s.Valid()
    modifies s, s.dir, s.tables, s.mem, s.mem.active
    ensures s.Valid() && s.model == Do(old(s.model), a) && (s.mem.active == old(s.mem.active) || fresh(s.mem.active))
    ensures old(s.dir.trail) <= s.dir.trail && AllRepresent(s.dir.trail[|old(s.dir.trail)|..], s.model)
  {
    hide KeyValueStore.Valid, KeyValueStore.Tidy, AllRepresent, Held, InMemory, OfLevel;
    match a {
      case DoPut(k, v) => var r := s.Put(k, v);
      case DoRemove(k) => var r := s.Remove(k);
      case DoCheckpoint => s.Checkpoint();
      case DoCompact => var r := s.Compact();
    }
  }

  method PerformAndCrash(s: KeyValueStore, a: Action, n: nat) returns (d: Disk, ghost m: map<Key, Text>)
    requires s.Valid()
    modifies s, s.dir, s.tables, s.mem, s.mem.active
    ensures Represents(d, m) && forall starts :: Follows(old(s.model), Crashed(a, n, starts), m)
  {
    hide TableSet, Loads, Coherent, Reflects, RepresentedBy, M.Descending, M.Within, M.FrozenOk;
    CoherentRepresents(s.dir.Now(), s.mem.Layers(), s.tables.readers, s.model);
    var before := |s.dir.trail|;
    Perform(s, a);
    var after := |s.dir.trail|;
    if n == 0 {
      return s.dir.trail[before - 1], old(s.model);
    }
    m := s.model;
    CoherentRepresents(s.dir.Now(), s.mem.Layers(), s.tables.readers, s.model);
    var i := if before - 1 + n < after then before - 1 + n else after - 1;
    d := s.dir.trail[i];
    if i >= before { assert d == s.dir.trail[before..][i - before]; }
  }

  lemma OpensRepresented(d: Disk, m: map<Key, Text>)
    requires Represents(d, m)
    ensures Opens(d, m) && d.current.Some?
  {
    var ts :| RepresentedBy(d, m, ts);
    LoadsCurrent(d, ts);
  }

  /** One step of a session, from a store that nobody else holds. */
  method TakeStep(s: KeyValueStore, step: Step, maxBytes: nat, trigger: nat, maxTables: nat, automatic: bool) returns (s': KeyValueStore)
    requires s.Valid() && maxBytes > 0 && 2 <= trigger <= maxTables
    modifies s, s.dir, s.tables, s.mem, s.mem.active
    ensures s'.Valid() && Follows(old(s.model), step, s'.model)
    ensures s' == s || (fresh(s') && fresh(s'.dir) && fresh(s'.tables) && fresh(s'.mem))
    ensures s'.mem.active == old(s.mem.active) || fresh(s'.mem.active)
  {
    hide Represents, Opens, AllRepresent, Coherent, TableSet, Loads, Reflects, Ceiling, M.Descending, M.Within, M.FrozenOk;
    match step {
      case Complete(a) =>
        Perform(s, a);
        s' := s;
      case Crashed(a, n, starts) =>
        var left; ghost var now;
        left, now := PerformAndCrash(s, a, n);
        s' := ReopenAfter(left, starts, maxBytes, trigger, maxTables, automatic, now);
    }
  }

  /** Over every session of operations and crashes, crashes during restarts included, the store is the plain map that the completed
      operations make, with at most the operation in flight at each crash in doubt. */
  method Session(d: Disk, steps: seq<Step>, maxBytes: nat, trigger: nat, maxTables: nat, automatic: bool, ghost m: map<Key, Text>)
    returns (s: KeyValueStore, ghost ms: seq<map<Key, Text>>)
    requires Opens(d, m) && maxBytes > 0 && 2 <= trigger <= maxTables
    ensures |ms| == |steps| + 1 && ms[0] == m && forall i :: 0 <= i < |steps| ==> Follows(ms[i], steps[i], ms[i + 1])
    ensures s.Valid() && s.model == ms[|steps|]
  {
    hide KeyValueStore.Valid, Opens, Follows, AllRepresent;
    s := Reopen(d, maxBytes, trigger, maxTables, automatic, m);
    ms := [m];
    var i := 0;
    while i < |steps|
      invariant 0 <= i <= |steps| && |ms| == i + 1 && ms[0] == m
      invariant fresh(s) && fresh(s.dir) && fresh(s.tables) && fresh(s.mem) && fresh(s.mem.active)
      invariant s.Valid() && s.model == ms[i]
      invariant forall j :: 0 <= j < i ==> Follows(ms[j], steps[j], ms[j + 1])
    {
      s := TakeStep(s, steps[i], maxBytes, trigger, maxTables, automatic);
      ms := ms + [s.model];
      i := i + 1;
    }
  }
}
