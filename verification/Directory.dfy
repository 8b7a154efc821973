/** The durable state of a store: the write-ahead log, the table files, the versioned manifests and
    CURRENT. Every method is one atomic durable step (write a temporary file, fsync, rename, or a
    synced append or truncate), and `trail` keeps the state after each of them. */
module Directories {
  import opened Basics
  import opened Records
  import opened Tables

  datatype Op = Put(key: Key, value: Text) | Delete(key: Key)

  datatype File = File(generation: nat, records: seq<Record>)

  datatype Meta = Meta(id: nat, level: Level, generation: nat, count: nat,
                       minSeq: nat, maxSeq: nat, smallest: Key, largest: Key)

  datatype Manifest = Manifest(generation: nat, nextFileId: nat, tables: seq<Meta>)

  datatype Disk = Disk(wal: seq<Op>, files: map<nat, File>, manifests: map<nat, Manifest>, current: Option<nat>)

  function MaxSeq(rs: seq<Record>): nat {
    if |rs| == 0 then 0
    else
      var m, s := MaxSeq(rs[..|rs| - 1]), rs[|rs| - 1].entry.seqno;
      if s > m then s else m
  }

  function MinSeq(rs: seq<Record>): nat
    requires |rs| > 0
  {
    var s := rs[|rs| - 1].entry.seqno;
    if |rs| == 1 then s
    else
      var m := MinSeq(rs[..|rs| - 1]);
      if s < m then s else m
  }

  function MetaOf(t: Table): Meta
    requires |t.records| > 0
  {
    Meta(t.id, t.level, t.generation, |t.records|, MinSeq(t.records), MaxSeq(t.records), Smallest(t), Largest(t))
  }

  function MetasOf(ts: seq<Table>): seq<Meta>
    requires forall i :: 0 <= i < |ts| ==> |ts[i].records| > 0
  {
    seq(|ts|, i requires 0 <= i < |ts| => MetaOf(ts[i]))
  }

  predicate Listed(d: Disk, t: Table, m: Meta) {
    && |t.records| > 0 && m == MetaOf(t)
    && t.id in d.files && d.files[t.id] == File(t.generation, t.records)
  }

  /** CURRENT names a manifest of its own generation that lists exactly these tables, and every
      listed file exists with the listed metadata: what a start checks. */
  ghost predicate Lists(d: Disk, ts: seq<Table>) {
    && d.current.Some? && d.current.value in d.manifests
    && var m := d.manifests[d.current.value];
       && m.generation == d.current.value && |m.tables| == |ts|
       && (forall i :: 0 <= i < |ts| ==> Listed(d, ts[i], m.tables[i]))
  }

  /** In addition, the next file id a start hands out is past every listed table. */
  ghost predicate Loads(d: Disk, ts: seq<Table>) {
    Lists(d, ts) && forall i :: 0 <= i < |ts| ==> ts[i].id < NextOf(d)
  }

  /** A directory that never held a store. */
  predicate Blank(d: Disk) {
    d.current == None && d.manifests == map[] && d.files == map[]
  }

  /** A start stops: manifests without CURRENT, or a CURRENT behind which no table list fits. */
  ghost predicate Refuses(d: Disk) {
    if d.current.None? then d.manifests != map[] else forall ts :: !Lists(d, ts)
  }

  function NextOf(d: Disk): nat
    requires d.current.Some? && d.current.value in d.manifests
  {
    d.manifests[d.current.value].nextFileId
  }

  /** A disk state loads at most one table list. */
  lemma ListsOnce(d: Disk, ts: seq<Table>, us: seq<Table>)
    requires Lists(d, ts) && Lists(d, us)
    ensures ts == us
  {
    var m := d.manifests[d.current.value];
    forall i | 0 <= i < |ts| ensures ts[i] == us[i] {
      assert Listed(d, ts[i], m.tables[i]) && Listed(d, us[i], m.tables[i]);
    }
  }

  class Directory {
    var wal: seq<Op>
    var files: map<nat, File>
    var manifests: map<nat, Manifest>
    var current: Option<nat>
    var trail: seq<Disk>

    function Now(): Disk
      reads this
    {
      Disk(wal, files, manifests, current)
    }

    ghost predicate Valid()
      reads this
    {
      |trail| > 0 && trail[|trail| - 1] == Now()
    }

    /** A directory found in some durable state. */
    constructor (d: Disk)
      ensures Valid() && Now() == d && trail == [d]
    {
      wal, files, manifests, current := d.wal, d.files, d.manifests, d.current;
      trail := [d];
    }

    method AppendWal(op: Op)
      modifies this
      ensures Valid() && Now() == old(Now()).(wal := old(wal) + [op]) && trail == old(trail) + [Now()]
    {
      wal := wal + [op];
      trail := trail + [Now()];
    }

    method ResetWal()
      modifies this
      ensures Valid() && Now() == old(Now()).(wal := []) && trail == old(trail) + [Now()]
    {
      wal := [];
      trail := trail + [Now()];
    }

    method WriteTable(id: nat, f: File)
      modifies this
      ensures Valid() && Now() == old(Now()).(files := old(files)[id := f]) && trail == old(trail) + [Now()]
    {
      files := files[id := f];
      trail := trail + [Now()];
    }

    method RemoveTable(id: nat)
      modifies this
      ensures Valid() && Now() == old(Now()).(files := old(files) - {id}) && trail == old(trail) + [Now()]
    {
      files := files - {id};
      trail := trail + [Now()];
    }

    method WriteManifest(m: Manifest)
      modifies this
      ensures Valid() && Now() == old(Now()).(manifests := old(manifests)[m.generation := m]) && trail == old(trail) + [Now()]
    {
      manifests := manifests[m.generation := m];
      trail := trail + [Now()];
    }

    method SwitchCurrent(g: nat)
      modifies this
      ensures Valid() && Now() == old(Now()).(current := Some(g)) && trail == old(trail) + [Now()]
    {
      current := Some(g);
      trail := trail + [Now()];
    }
  }
}
