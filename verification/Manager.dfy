/** The table manager of src/sstable_manager.cpp: flush, compaction, publication and reload. */
module Manager {
  import opened Basics
  import opened Records
  import opened Tables
  import opened Directories
  import opened Selection

  /** What every published list of tables satisfies. */
  ghost predicate TableSet(ts: seq<Table>) {
    AllGood(ts) && UniqueIds(ts) && Distinct(ts) && Disjoint1(ts)
  }

  /** Everything about a published list that a start does not check again, because every publication
      leaves it so. */
  ghost predicate Kin(ts: seq<Table>) {
    AllGood(ts) && UniqueIds(ts) && Distinct(ts) && Ordered(ts)
  }

  /** A directory that only the store has written, whole or cut off anywhere; legacy tables aside. */
  ghost predicate Sound(d: Disk) {
    (d.current.None? ==> d.files == map[]) && forall ts :: Lists(d, ts) ==> Loads(d, ts) && Kin(ts)
  }

  /** What a start finds in a directory. */
  datatype Found = Fresh | Refused | Listing(tables: seq<Table>)

  /** The map a reader of these tables sees. */
  ghost predicate Reflects(ts: seq<Table>, m: map<Key, Text>) {
    forall k :: Visible(Newest(ts, k)) == At(m, k)
  }

  /** Each of these durable states keeps the log and loads either the old or the new list. */
  ghost predicate Between(ds: seq<Disk>, wal: seq<Op>, a: seq<Table>, b: seq<Table>) {
    forall i :: 0 <= i < |ds| ==> ds[i].wal == wal && (Loads(ds[i], a) || Loads(ds[i], b))
  }

  ghost predicate OnDisk(d: Disk, t: Table) {
    t.id in d.files && d.files[t.id] == File(t.generation, t.records)
  }

  ghost predicate AllOnDisk(d: Disk, ts: seq<Table>) {
    forall i :: 0 <= i < |ts| ==> OnDisk(d, ts[i])
  }

  function HighSeq(ts: seq<Table>): nat {
    if |ts| == 0 then 0
    else
      var m, s := HighSeq(ts[..|ts| - 1]), MaxSeq(ts[|ts| - 1].records);
      if s > m then s else m
  }

  function HighGeneration(ts: seq<Table>): nat {
    if |ts| == 0 then 0
    else
      var m, g := HighGeneration(ts[..|ts| - 1]), ts[|ts| - 1].generation;
      if g > m then g else m
  }

  lemma {:induction false} MaxSeqBounds(rs: seq<Record>, i: nat)
    requires i < |rs|
    ensures rs[i].entry.seqno <= MaxSeq(rs)
  {
    if i < |rs| - 1 { MaxSeqBounds(rs[..|rs| - 1], i); }
  }

  lemma {:induction false} HighSeqAt(ts: seq<Table>, i: nat)
    requires i < |ts|
    ensures MaxSeq(ts[i].records) <= HighSeq(ts)
  {
    if i < |ts| - 1 { HighSeqAt(ts[..|ts| - 1], i); }
  }

  /** Every sequence number in the tables is at most the one the manager reports. */
  lemma HighSeqBounds(ts: seq<Table>, k: Key, e: Entry)
    requires Held(ts, k, e)
    ensures e.seqno <= HighSeq(ts)
  {
    var i :| HeldAt(ts, i, k, e);
    var j := FindSome(ts[i].records, k);
    MaxSeqBounds(ts[i].records, j);
    HighSeqAt(ts, i);
  }

  // ------------------------------------------------------- durable states load

  lemma LoadsOnDisk(d: Disk, ts: seq<Table>)
    requires Loads(d, ts)
    ensures AllOnDisk(d, ts)
  {
    forall i | 0 <= i < |ts| ensures OnDisk(d, ts[i]) { assert Listed(d, ts[i], d.manifests[d.current.value].tables[i]); }
  }

  /** Files that are not listed come and go unnoticed. */
  lemma LoadsUnlisted(d: Disk, d': Disk, ts: seq<Table>)
    requires Loads(d, ts) && d'.manifests == d.manifests && d'.current == d.current && AllOnDisk(d', ts)
    ensures Loads(d', ts)
  {
    var m := d.manifests[d.current.value];
    forall i | 0 <= i < |ts| ensures Listed(d', ts[i], m.tables[i]) {
      assert Listed(d, ts[i], m.tables[i]) && OnDisk(d', ts[i]);
    }
  }

  /** A manifest of another generation changes nothing until CURRENT names it. */
  lemma LoadsOtherManifest(d: Disk, ts: seq<Table>, m: Manifest)
    requires Loads(d, ts) && d.current != Some(m.generation)
    ensures Loads(d.(manifests := d.manifests[m.generation := m]), ts)
  {
    var d' := d.(manifests := d.manifests[m.generation := m]);
    var n := d.manifests[d.current.value];
    forall i | 0 <= i < |ts| ensures Listed(d', ts[i], n.tables[i]) { assert Listed(d, ts[i], n.tables[i]); }
  }

  lemma LoadsNew(d: Disk, ts: seq<Table>, g: nat, next: nat)
    requires AllGood(ts) && AllOnDisk(d, ts) && forall i :: 0 <= i < |ts| ==> ts[i].id < next
    requires d.current == Some(g) && g in d.manifests && d.manifests[g] == Manifest(g, next, MetasOf(ts))
    ensures Loads(d, ts) && NextOf(d) == next
  {
    forall i | 0 <= i < |ts| ensures Listed(d, ts[i], MetasOf(ts)[i]) { assert OnDisk(d, ts[i]) && Good(ts[i]); }
  }

  /** One more durable step on the trail since length n. */
  lemma BetweenMore(t: seq<Disk>, t': seq<Disk>, n: nat, d: Disk, wal: seq<Op>, a: seq<Table>, b: seq<Table>)
    requires n <= |t| && t' == t + [d] && Between(t[n..], wal, a, b) && d.wal == wal && (Loads(d, a) || Loads(d, b))
    ensures Between(t'[n..], wal, a, b)
  {
    assert t'[n..] == t[n..] + [d];
  }

  lemma BetweenNone(t: seq<Disk>, wal: seq<Op>, a: seq<Table>, b: seq<Table>)
    ensures Between(t[|t|..], wal, a, b)
  {}

  lemma LoadsCurrent(d: Disk, ts: seq<Table>)
    requires Loads(d, ts)
    ensures d.current.Some? && d.current.value in d.manifests
    ensures forall i :: 0 <= i < |ts| ==> ts[i].id < NextOf(d)
  {}

  /** Removing or replacing a file whose id is not listed. */
  lemma LoadsWithout(d: Disk, d': Disk, ts: seq<Table>, id: nat)
    requires Loads(d, ts) && d'.manifests == d.manifests && d'.current == d.current && !HasId(ts, id)
    requires forall x :: x != id ==> (x in d.files <==> x in d'.files) && (x in d.files ==> d'.files[x] == d.files[x])
    ensures Loads(d', ts)
  {
    LoadsOnDisk(d, ts);
    forall i | 0 <= i < |ts| ensures OnDisk(d', ts[i]) { assert OnDisk(d, ts[i]); }
    LoadsUnlisted(d, d', ts);
  }

  lemma SameOnDisk(d: Disk, a: seq<Table>, b: seq<Table>, next: nat)
    requires SameTables(a, b) && AllOnDisk(d, a) && forall i :: 0 <= i < |a| ==> a[i].id < next
    ensures AllOnDisk(d, b) && forall i :: 0 <= i < |b| ==> b[i].id < next
  {
    forall i | 0 <= i < |b| ensures OnDisk(d, b[i]) && b[i].id < next {
      assert b[i] in a;
      var j :| 0 <= j < |a| && a[j] == b[i];
      assert OnDisk(d, a[j]);
    }
  }

  // ------------------------------------------------------------- live key counts

  /** A map that agrees with what is visible for every key but k, brought up to date at k. */
  function Updated(m: map<Key, Text>, k: Key, e: Entry): map<Key, Text> {
    if e.deleted then m - {k} else m[k := e.value]
  }

  lemma UpdatedSize(m: map<Key, Text>, k: Key, e: Entry)
    ensures |Updated(m, k, e)| + (if k in m && e.deleted then 1 else 0) == |m| + (if k !in m && !e.deleted then 1 else 0)
  {
    if k in m && e.deleted {
      var n := m - {k};
      assert m == n[k := m[k]];
      assert |n[k := m[k]]| == |n| + 1 by { assert k !in n; }
    } else if e.deleted {
      assert m - {k} == m;
    }
  }

  /** live_count_after_flush: the count after laying the flushed records over the tables. */
  method LiveAfterFlush(ts: seq<Table>, rs: seq<Record>, live: nat, ghost m: map<Key, Text>)
    returns (count: nat, ghost after: map<Key, Text>)
    requires AllGood(ts) && Sorted(rs) && Reflects(ts, m) && live == |m|
    ensures count == |after| && forall k :: At(after, k) == Visible(Better(Newest(ts, k), Find(rs, k)))
    ensures forall m' :: Overlaid(ts, rs, |rs|, m') ==> count == |m'|
  {
    hide Overlaid, Updated, Newest;
    count, after := live, m;
    OverlaidNone(ts, rs, m);
    var i := 0;
    while i < |rs|
      invariant 0 <= i <= |rs| && count == |after| && Overlaid(ts, rs, i, after)
    {
      var r := rs[i];
      var previous := NewestIn(ts, r.key);
      OverlayMore(ts, rs, i, after);
      if previous.None? || previous.value.seqno < r.entry.seqno {
        var wasLive := previous.Some? && !previous.value.deleted;
        UpdatedSize(after, r.key, r.entry);
        after := Updated(after, r.key, r.entry);
        if !wasLive && !r.entry.deleted {
          count := count + 1;
        } else if wasLive && r.entry.deleted {
          count := count - 1;
        }
      }
      i := i + 1;
    }
    OverlaidAll(ts, rs, after);
    forall m' | Overlaid(ts, rs, |rs|, m') ensures count == |m'| {
      OverlaidAll(ts, rs, m');
      SameMap(after, m');
    }
  }

  lemma SameMap(m: map<Key, Text>, m': map<Key, Text>)
    requires forall k :: At(m, k) == At(m', k)
    ensures m == m'
  {
    forall k ensures k in m <==> k in m' { assert At(m, k) == At(m', k); }
    forall k | k in m ensures m[k] == m'[k] { assert At(m, k) == At(m', k); }
  }

  /** The map after laying the first i records over the tables. */
  ghost predicate Overlaid(ts: seq<Table>, rs: seq<Record>, i: nat, m: map<Key, Text>)
    requires i <= |rs|
  {
    forall k :: At(m, k) == Visible(Better(Newest(ts, k), Find(rs[..i], k)))
  }

  lemma OverlaidNone(ts: seq<Table>, rs: seq<Record>, m: map<Key, Text>)
    requires Reflects(ts, m)
    ensures Overlaid(ts, rs, 0, m)
  {
    forall k ensures At(m, k) == Visible(Better(Newest(ts, k), Find(rs[..0], k))) { assert Visible(Newest(ts, k)) == At(m, k); }
  }

  lemma OverlaidAll(ts: seq<Table>, rs: seq<Record>, m: map<Key, Text>)
    requires Overlaid(ts, rs, |rs|, m)
    ensures forall k :: At(m, k) == Visible(Better(Newest(ts, k), Find(rs, k)))
  {
    assert rs[..|rs|] == rs;
  }

  lemma OverlayMore(ts: seq<Table>, rs: seq<Record>, i: nat, m: map<Key, Text>)
    requires Sorted(rs) && i < |rs| && Overlaid(ts, rs, i, m)
    ensures var r, previous := rs[i], Newest(ts, rs[i].key);
            && (r.key in m <==> previous.Some? && !previous.value.deleted)
            && Overlaid(ts, rs, i + 1, if previous.None? || previous.value.seqno < r.entry.seqno then Updated(m, r.key, r.entry) else m)
  {
    hide Newest;
    var r, previous := rs[i], Newest(ts, rs[i].key);
    LastUnseenAt(rs, i);
    assert At(m, r.key) == Visible(previous);
    assert rs[..i + 1] == rs[..i] + [r];
    var m' := if previous.None? || previous.value.seqno < r.entry.seqno then Updated(m, r.key, r.entry) else m;
    forall k ensures At(m', k) == Visible(Better(Newest(ts, k), Find(rs[..i + 1], k))) {
      FindSplit(rs[..i], [r], k);
      assert At(m, k) == Visible(Better(Newest(ts, k), Find(rs[..i], k)));
    }
  }

  lemma LastUnseenAt(rs: seq<Record>, i: nat)
    requires Sorted(rs) && i < |rs|
    ensures Find(rs[..i], rs[i].key) == None
  {
    LessIrreflexive(rs[i].key);
    FindAbsent(rs[..i], rs[i].key);
  }

  /** newest_entry_from_tables: skip tables whose range excludes the key, keep the newest hit. */
  method NewestIn(ts: seq<Table>, k: Key) returns (best: Option<Entry>)
    requires AllGood(ts)
    ensures best == Newest(ts, k)
  {
    best := None;
    var i := 0;
    while i < |ts|
      invariant 0 <= i <= |ts| && best == Newest(ts[..i], k)
    {
      assert ts[..i + 1][..i] == ts[..i];
      LookupIsFind(ts[i], k);
      if InRange(k, Smallest(ts[i]), Largest(ts[i])) {
        var candidate := Find(ts[i].records, k);
        if candidate.Some? && (best.None? || candidate.value.seqno > best.value.seqno) {
          best := candidate;
        }
      }
      i := i + 1;
    }
    assert ts[..i] == ts;
  }

  /** compute_live_key_count: merge everything and count what is not deleted. */
  method CountLive(ts: seq<Table>) returns (count: nat, ghost m: map<Key, Text>)
    requires AllGood(ts)
    ensures Reflects(ts, m) && count == |m|
    ensures forall m' :: Reflects(ts, m') ==> count == |m'|
  {
    var latest := MergeTables(ts);
    forall k ensures Sorted(latest) && Find(latest, k) == Newest(ts, k) { MergedFinds(ts, k); }
    assert Sorted(latest) by { MergedFinds(ts, []); }
    count, m := 0, map[];
    var i := 0;
    while i < |latest|
      invariant 0 <= i <= |latest| && count == |m|
      invariant forall k :: At(m, k) == Visible(Find(latest[..i], k))
    {
      LastUnseenAt(latest, i);
      assert latest[..i + 1] == latest[..i] + [latest[i]];
      forall k ensures Find(latest[..i + 1], k) == if k == latest[i].key then Some(latest[i].entry) else Find(latest[..i], k) {
        FindSplit(latest[..i], [latest[i]], k);
      }
      ghost var m0 := m;
      assert latest[i].key !in m0 by { assert At(m0, latest[i].key) == None; }
      if !latest[i].entry.deleted {
        m := m[latest[i].key := latest[i].entry.value];
        count := count + 1;
      }
      forall k ensures At(m, k) == Visible(Find(latest[..i + 1], k)) { assert At(m0, k) == Visible(Find(latest[..i], k)); }
      i := i + 1;
    }
    assert latest[..i] == latest;
    forall m' | Reflects(ts, m') ensures count == |m'| {
      forall k ensures At(m, k) == At(m', k) { assert Visible(Newest(ts, k)) == At(m', k); }
      SameMap(m, m');
    }
  }

  /** The merge loops over the input tables and their records. */
  method MergeTables(ts: seq<Table>) returns (merged: seq<Record>)
    ensures merged == Merged(ts)
  {
    merged := [];
    var i := 0;
    while i < |ts|
      invariant 0 <= i <= |ts| && merged == Merged(ts[..i])
    {
      assert ts[..i + 1][..i] == ts[..i];
      var rs, j := ts[i].records, 0;
      while j < |rs|
        invariant 0 <= j <= |rs| && merged == Absorb(Merged(ts[..i]), rs[..j])
      {
        assert rs[..j + 1][..j] == rs[..j];
        var existing := Find(merged, rs[j].key);
        if existing.None? || rs[j].entry.seqno > existing.value.seqno {
          merged := Upsert(merged, rs[j].key, rs[j].entry);
        }
        j := j + 1;
      }
      assert rs[..j] == rs;
      i := i + 1;
    }
    assert ts[..i] == ts;
  }

  method CanDropTombstone(k: Key, tombstone: Entry, unselected: seq<Table>) returns (ok: bool)
    requires AllGood(unselected)
    ensures ok <==> CanDrop(unselected, k, tombstone)
  {
    var i := 0;
    while i < |unselected|
      invariant 0 <= i <= |unselected|
      invariant forall j :: 0 <= j < i ==> !Blocks(unselected[j], k, tombstone)
    {
      LookupIsFind(unselected[i], k);
      var e := Lookup(unselected[i], k);
      if e.Some? && !e.value.deleted && e.value.seqno <= tombstone.seqno {
        assert Blocks(unselected[i], k, tombstone);
        return false;
      }
      i := i + 1;
    }
    ok := true;
  }

  method DropTombstones(merged: seq<Record>, unselected: seq<Table>) returns (kept: seq<Record>)
    requires AllGood(unselected)
    ensures kept == Kept(merged, unselected)
  {
    kept := [];
    var i := 0;
    while i < |merged|
      invariant 0 <= i <= |merged| && kept == Kept(merged[..i], unselected)
    {
      assert merged[..i + 1][..i] == merged[..i];
      var drop := false;
      if merged[i].entry.deleted {
        drop := CanDropTombstone(merged[i].key, merged[i].entry, unselected);
      }
      if !drop {
        kept := kept + [merged[i]];
      }
      i := i + 1;
    }
    assert merged[..i] == merged;
  }

  // ------------------------------------------------------------------ compaction

  /** A compaction output keeps the table set well formed: in particular level 1 stays disjoint,
      because the output lies in the closed range and no unselected level-1 table touches it. */
  lemma CompactedIsTableSet(ts: seq<Table>, base: seq<Table>, selected: seq<Table>, unselected: seq<Table>, lo: Key, hi: Key, id: nat, generation: nat)
    requires TableSet(ts) && AllGood(base) && AllGood(selected) && Chosen(ts, base, selected, unselected, lo, hi)
    requires forall i :: 0 <= i < |ts| ==> ts[i].id != id
    requires forall t :: t in base ==> t.level == Level0
    ensures TableSet(Compacted(selected, unselected, id, generation))
  {
    var after, n := Compacted(selected, unselected, id, generation), |unselected|;
    SameDistinct(ts, selected + unselected);
    CompactedDistinct(selected, unselected, id, generation);
    forall i | 0 <= i < n ensures Good(unselected[i]) && unselected[i].id != id && unselected[i] in ts {
      assert (selected + unselected)[|selected| + i] == unselected[i];
      assert unselected[i] in selected + unselected;
    }
    UnselectedUnique(selected, unselected);
    if |after| > n { OutputGood(selected, unselected, id, generation, lo, hi, ts, base); }
    forall i, j | 0 <= i < j < |after| && after[i].level == Level1 && after[j].level == Level1 ensures Apart(after[i], after[j]) {
      if j < n {
        UnselectedApart(ts, unselected, i, j);
      } else {
        OutputApart(ts, base, selected, unselected, lo, hi, id, generation, i);
      }
    }
  }

  lemma UnselectedUnique(selected: seq<Table>, unselected: seq<Table>)
    requires UniqueIds(selected + unselected)
    ensures UniqueIds(unselected)
  {
    forall i, j | 0 <= i < j < |unselected| ensures unselected[i].id != unselected[j].id {
      assert (selected + unselected)[|selected| + i].id != (selected + unselected)[|selected| + j].id;
    }
  }

  lemma UnselectedApart(ts: seq<Table>, unselected: seq<Table>, i: nat, j: nat)
    requires TableSet(ts) && UniqueIds(unselected) && i < j < |unselected| && unselected[i] in ts && unselected[j] in ts
    requires unselected[i].level == Level1 && unselected[j].level == Level1
    ensures |unselected[i].records| > 0 && |unselected[j].records| > 0 && Apart(unselected[i], unselected[j])
  {
    var p :| 0 <= p < |ts| && ts[p] == unselected[i];
    var q :| 0 <= q < |ts| && ts[q] == unselected[j];
    assert Apart(ts[if p < q then p else q], ts[if p < q then q else p]);
  }

  lemma SelectedWithin(ts: seq<Table>, base: seq<Table>, selected: seq<Table>, unselected: seq<Table>, lo: Key, hi: Key)
    requires AllGood(ts) && AllGood(base) && AllGood(selected) && Chosen(ts, base, selected, unselected, lo, hi)
    ensures forall i :: 0 <= i < |selected| ==> AtMost(lo, Smallest(selected[i])) && AtMost(Largest(selected[i]), hi)
  {
    forall i | 0 <= i < |selected| ensures Within(selected[i], lo, hi) {
      assert selected[i] in selected;
      if selected[i] in base {
        var j :| 0 <= j < |base| && base[j] == selected[i];
      } else {
        var j :| 0 <= j < |ts| && ts[j] == selected[i];
      }
    }
  }

  lemma OutputGood(selected: seq<Table>, unselected: seq<Table>, id: nat, generation: nat, lo: Key, hi: Key, ts: seq<Table>, base: seq<Table>)
    requires AllGood(ts) && AllGood(base) && AllGood(selected) && Chosen(ts, base, selected, unselected, lo, hi)
    requires |Kept(Merged(selected), unselected)| > 0
    ensures Good(Table(id, Level1, generation, Kept(Merged(selected), unselected)))
    ensures Within(Table(id, Level1, generation, Kept(Merged(selected), unselected)), lo, hi)
  {
    var kept := Kept(Merged(selected), unselected);
    MergedFinds(selected, []);
    KeptSorted(Merged(selected), unselected);
    SelectedWithin(ts, base, selected, unselected, lo, hi);
    forall i | 0 <= i < |kept| ensures kept[i].entry.seqno > 0 && InRange(kept[i].key, lo, hi) {
      OutputInRange(selected, unselected, lo, hi, kept[i]);
    }
  }

  lemma OutputApart(ts: seq<Table>, base: seq<Table>, selected: seq<Table>, unselected: seq<Table>, lo: Key, hi: Key, id: nat, generation: nat, i: nat)
    requires AllGood(ts) && AllGood(base) && AllGood(selected) && Chosen(ts, base, selected, unselected, lo, hi)
    requires |Kept(Merged(selected), unselected)| > 0 && i < |unselected| && unselected[i] in ts && Good(unselected[i])
    requires unselected[i].level == Level1
    ensures Apart(unselected[i], Table(id, Level1, generation, Kept(Merged(selected), unselected)))
  {
    var u, out := unselected[i], Table(id, Level1, generation, Kept(Merged(selected), unselected));
    OutputGood(selected, unselected, id, generation, lo, hi, ts, base);
    forall j | 0 <= j < |selected| ensures selected[j].id != u.id { NotBothSides(selected, unselected, selected[j], u); }
    assert !Touches(u, lo, hi);
    if !Apart(u, out) { StillTouches(u, Smallest(out), Largest(out), lo, hi); }
  }

  lemma NotBothSides(selected: seq<Table>, unselected: seq<Table>, x: Table, y: Table)
    requires UniqueIds(selected + unselected) && x in selected && y in unselected
    ensures x.id != y.id
  {
    var i :| 0 <= i < |selected| && selected[i] == x;
    var j :| 0 <= j < |unselected| && unselected[j] == y;
    assert (selected + unselected)[i].id != (selected + unselected)[|selected| + j].id;
  }

  // ---------------------------------------------------------------- the manager

  class SSTableManager {
    const dir: Directory
    const trigger: nat
    const maxTables: nat
    var readers: seq<Table>
    var liveKeys: nat
    var maxSequence: nat
    var nextGeneration: nat
    var nextFileId: nat
    var manifestGeneration: nat
    ghost var visible: map<Key, Text>

    ghost predicate Valid()
      reads this, dir
    {
      && dir.Valid() && 2 <= trigger <= maxTables
      && TableSet(readers) && Ordered(readers) && Loads(dir.Now(), readers)
      && dir.current == Some(manifestGeneration) && NextOf(dir.Now()) <= nextFileId
      && Reflects(readers, visible) && liveKeys == |visible|
      && maxSequence == HighSeq(readers)
      && nextGeneration == (if |readers| == 0 then 0 else HighGeneration(readers) + 1)
    }

    // -------------------------------------------------------------------- reload

    /** What the directory holds: nothing yet, a published table list, or something a start refuses. */
    static method ReadManifest(dir: Directory) returns (r: Found)
      ensures r.Fresh? <==> dir.current.None? && dir.manifests == map[]
      ensures r.Refused? <==> Refuses(dir.Now())
      ensures r.Listing? ==> Lists(dir.Now(), r.tables)
    {
      if dir.current.None? {
        return if dir.manifests == map[] then Fresh else Refused;
      }
      if dir.current.value !in dir.manifests {
        return Refused;
      }
      var m := dir.manifests[dir.current.value];
      if m.generation != dir.current.value {
        return Refused;
      }
      var ts, i := [], 0;
      while i < |m.tables|
        invariant 0 <= i <= |m.tables| && |ts| == i
        invariant forall j :: 0 <= j < i ==> Listed(dir.Now(), ts[j], m.tables[j])
      {
        var id := m.tables[i].id;
        if id !in dir.files {
          Unlistable(dir.Now(), i);
          return Refused;
        }
        var t := Table(id, m.tables[i].level, dir.files[id].generation, dir.files[id].records);
        if |t.records| == 0 || MetaOf(t) != m.tables[i] {
          Unlistable(dir.Now(), i);
          return Refused;
        }
        ts := ts + [t];
        i := i + 1;
      }
      assert Lists(dir.Now(), ts);
      r := Listing(ts);
    }

    /** Remove every table file that is not listed. */
    static method CleanUp(dir: Directory, ts: seq<Table>)
      requires dir.Valid() && Loads(dir.Now(), ts)
      modifies dir
      ensures dir.Valid() && Loads(dir.Now(), ts) && dir.wal == old(dir.wal) && dir.current == old(dir.current)
      ensures NextOf(dir.Now()) == old(NextOf(dir.Now()))
      ensures forall id :: id in dir.files <==> id in old(dir.files) && HasId(ts, id)
      ensures old(dir.trail) <= dir.trail && Between(dir.trail[|old(dir.trail)|..], dir.wal, ts, ts)
    {
      hide Loads, Between;
      LoadsCurrent(dir.Now(), ts);
      BetweenNone(dir.trail, dir.wal, ts, ts);
      var active := set i | 0 <= i < |ts| :: ts[i].id;
      forall id ensures id in active <==> HasId(ts, id) {}
      var pending := dir.files.Keys - active;
      while |pending| > 0
        invariant dir.Valid() && Loads(dir.Now(), ts) && dir.wal == old(dir.wal)
        invariant dir.current == old(dir.current) && dir.manifests == old(dir.manifests)
        invariant pending !! active
        invariant forall id :: id in dir.files <==> id in old(dir.files) && (id in active || id in pending)
        invariant old(dir.trail) <= dir.trail && Between(dir.trail[|old(dir.trail)|..], dir.wal, ts, ts)
        decreases |pending|
      {
        var id :| id in pending;
        ghost var d0, t0 := dir.Now(), dir.trail;
        dir.RemoveTable(id);
        LoadsWithout(d0, dir.Now(), ts, id);
        BetweenMore(t0, dir.trail, |old(dir.trail)|, dir.Now(), dir.wal, ts, ts);
        pending := pending - {id};
      }
    }

    /** Start on a blank directory: publish the empty list. A crash between the two durable steps
        leaves a manifest without CURRENT, which no start accepts. */
    static method Create(dir: Directory, trigger: nat, maxTables: nat) returns (m: SSTableManager)
      requires dir.Valid() && Blank(dir.Now()) && 2 <= trigger <= maxTables
      modifies dir
      ensures fresh(m) && m.Valid() && m.dir == dir && m.readers == [] && m.visible == map[] && dir.wal == old(dir.wal)
      ensures m.maxSequence == 0 && m.nextGeneration == 0
      ensures |dir.trail| == |old(dir.trail)| + 2 && old(dir.trail) <= dir.trail && dir.trail[|old(dir.trail)| + 1] == dir.Now()
      ensures Refuses(dir.trail[|old(dir.trail)|])
    {
      dir.WriteManifest(Manifest(1, 1, []));
      assert 1 in dir.manifests && dir.manifests != map[];
      dir.SwitchCurrent(1);
      assert MetasOf([]) == [];
      LoadsNew(dir.Now(), [], 1, 1);
      EmptyReflects();
      m := new SSTableManager(dir, trigger, maxTables, [], 0, 0, 0, map[]);
    }

    /** Start on a published list: sort, check, clean up, count. Refused exactly when level 1 overlaps. */
    static method Start(dir: Directory, ts: seq<Table>, trigger: nat, maxTables: nat) returns (r: Option<SSTableManager>)
      requires dir.Valid() && Loads(dir.Now(), ts) && Kin(ts) && 2 <= trigger <= maxTables
      modifies dir
      ensures dir.Valid() && (r.Some? <==> TableSet(ts)) && (r.None? ==> dir.trail == old(dir.trail))
      ensures r.Some? ==> fresh(r.value) && r.value.Valid() && r.value.dir == dir && r.value.readers == ts && dir.wal == old(dir.wal)
      ensures r.Some? ==> r.value.nextFileId == old(NextOf(dir.Now()))
      ensures r.Some? ==> old(dir.trail) <= dir.trail && Between(dir.trail[|old(dir.trail)|..], dir.wal, ts, ts)
    {
      hide Distinct, Disjoint1, Between;
      var sorted := SortBy(ts, NewerFirst);
      SortAgain(ts);
      var ok := ValidateLevel1(sorted);
      if !ok {
        return None;
      }
      CleanUp(dir, sorted);
      var count; ghost var seen;
      count, seen := CountLive(sorted);
      var high, generation := Tally(sorted);
      var m := new SSTableManager(dir, trigger, maxTables, sorted, count, high, generation, seen);
      r := Some(m);
    }

    /** The manager of a directory: blank directories are begun, published lists are loaded, and
        everything else is refused without a durable step. */
    static method LoadExisting(dir: Directory, trigger: nat, maxTables: nat) returns (r: Option<SSTableManager>)
      requires dir.Valid() && Sound(dir.Now()) && 2 <= trigger <= maxTables
      modifies dir
      ensures dir.Valid() && (r.Some? <==> Blank(old(dir.Now())) || exists ts :: Loads(old(dir.Now()), ts) && TableSet(ts))
      ensures r.None? ==> dir.trail == old(dir.trail)
      ensures r.Some? ==> fresh(r.value) && r.value.Valid() && r.value.dir == dir && dir.wal == old(dir.wal) && old(dir.trail) <= dir.trail
      ensures r.Some? && old(dir.current).Some? ==>
                && Loads(old(dir.Now()), r.value.readers) && TableSet(r.value.readers) && Ordered(r.value.readers)
                && Between(dir.trail[|old(dir.trail)|..], dir.wal, r.value.readers, r.value.readers)
      ensures r.Some? && old(dir.current).None? ==>
                && Blank(old(dir.Now())) && r.value.readers == [] && r.value.visible == map[] && |dir.trail| == |old(dir.trail)| + 2
                && Refuses(dir.trail[|old(dir.trail)|]) && dir.trail[|old(dir.trail)| + 1] == dir.Now()
    {
      hide TableSet, Between, Ordered, Refuses, Kin;
      var found := ReadManifest(dir);
      match found {
        case Refused =>
          RefusedLoads(dir.Now());
          r := None;
        case Fresh =>
          var m := Create(dir, trigger, maxTables);
          r := Some(m);
        case Listing(ts) =>
          ghost var d := dir.Now();
          ListedAlone(d, ts);
          r := Start(dir, ts, trigger, maxTables);
          if r.None? { OnlyOneList(d, ts); } else { KinOrdered(ts); }
      }
    }

    constructor (dir: Directory, trigger: nat, maxTables: nat, tables: seq<Table>, count: nat, high: nat, generation: nat,
                 ghost seen: map<Key, Text>)
      requires dir.Valid() && Loads(dir.Now(), tables) && TableSet(tables) && Ordered(tables) && 2 <= trigger <= maxTables
      requires Reflects(tables, seen) && count == |seen|
      requires high == HighSeq(tables) && generation == if |tables| == 0 then 0 else HighGeneration(tables) + 1
      ensures Valid() && this.dir == dir && readers == tables && nextFileId == NextOf(dir.Now()) && visible == seen
    {
      this.dir, this.trigger, this.maxTables := dir, trigger, maxTables;
      readers, liveKeys, maxSequence, nextGeneration := tables, count, high, generation;
      nextFileId := dir.manifests[dir.current.value].nextFileId;
      manifestGeneration := dir.current.value;
      visible := seen;
    }

    // -------------------------------------------------------------- publication

    static method Tally(ts: seq<Table>) returns (high: nat, generation: nat)
      ensures high == HighSeq(ts) && generation == if |ts| == 0 then 0 else HighGeneration(ts) + 1
    {
      var i, g := 0, 0;
      high := 0;
      while i < |ts|
        invariant 0 <= i <= |ts| && high == HighSeq(ts[..i]) && g == HighGeneration(ts[..i])
      {
        assert ts[..i + 1][..i] == ts[..i];
        if MaxSeq(ts[i].records) > high {
          high := MaxSeq(ts[i].records);
        }
        if ts[i].generation > g {
          g := ts[i].generation;
        }
        i := i + 1;
      }
      assert ts[..i] == ts;
      generation := if |ts| == 0 then 0 else g + 1;
    }

    /** Make these tables the published ones. Publication is refused exactly when level 1 would
        overlap; otherwise each durable step leaves the old list or the new one. */
    method Publish(ts: seq<Table>, live: nat, ghost seen: map<Key, Text>) returns (ok: bool)
      requires Valid() && AllGood(ts) && UniqueIds(ts) && Distinct(ts) && AllOnDisk(dir.Now(), ts)
      requires forall i :: 0 <= i < |ts| ==> ts[i].id < nextFileId
      requires Reflects(ts, seen) && live == |seen|
      modifies this, dir
      ensures Valid() && (ok <==> Disjoint1(ts)) && nextFileId == old(nextFileId)
      ensures ok ==> SameTables(ts, readers) && visible == seen
      ensures !ok ==> readers == old(readers) && visible == old(visible)
      ensures dir.wal == old(dir.wal) && dir.files == old(dir.files)
      ensures old(dir.trail) <= dir.trail && Between(dir.trail[|old(dir.trail)|..], dir.wal, old(readers), readers)
    {
      hide Loads, Between, Distinct, Reflects, Ordered, AllGood, UniqueIds, SameTables, Disjoint1, AllOnDisk, HighSeq, HighGeneration;
      BetweenNone(dir.trail, dir.wal, readers, readers);
      var sorted;
      sorted, ok := SortAndCheck(ts);
      if !ok {
        return;
      }
      var high, generation := Tally(sorted);
      SameOnDisk(dir.Now(), ts, sorted, nextFileId);
      SameReflects(ts, sorted, seen);
      SameDistinct(ts, sorted);
      CommitManifest(sorted);
      readers, liveKeys, visible := sorted, live, seen;
      maxSequence, nextGeneration := high, generation;
    }

    static method SortAndCheck(ts: seq<Table>) returns (sorted: seq<Table>, ok: bool)
      requires AllGood(ts) && UniqueIds(ts)
      ensures SameTables(ts, sorted) && AllGood(sorted) && UniqueIds(sorted) && Ordered(sorted)
      ensures ok <==> Disjoint1(ts)
      ensures ok <==> Disjoint1(sorted)
    {
      sorted := SortBy(ts, NewerFirst);
      SortIsSame(ts, NewerFirst);
      SortOrdered(ts);
      SameGood(ts, sorted);
      ok := ValidateLevel1(sorted);
      if Disjoint1(ts) { SameDisjoint(ts, sorted); }
      if ok { SameDisjoint(sorted, ts); }
    }

    /** Write the next manifest, then switch CURRENT to it. */
    method CommitManifest(ts: seq<Table>)
      requires dir.Valid() && Loads(dir.Now(), readers) && dir.current == Some(manifestGeneration)
      requires AllGood(ts) && AllOnDisk(dir.Now(), ts) && forall i :: 0 <= i < |ts| ==> ts[i].id < nextFileId
      modifies this`manifestGeneration, dir
      ensures dir.Valid() && Loads(dir.Now(), ts) && dir.current == Some(manifestGeneration) && NextOf(dir.Now()) == nextFileId
      ensures dir.wal == old(dir.wal) && dir.files == old(dir.files)
      ensures old(dir.trail) <= dir.trail && Between(dir.trail[|old(dir.trail)|..], dir.wal, readers, ts)
    {
      var m := Manifest(manifestGeneration + 1, nextFileId, MetasOf(ts));
      ghost var d0 := dir.Now();
      dir.WriteManifest(m);
      LoadsOtherManifest(d0, readers, m);
      ghost var d1 := dir.Now();
      dir.SwitchCurrent(m.generation);
      LoadsNew(dir.Now(), ts, m.generation, nextFileId);
      manifestGeneration := m.generation;
      assert dir.trail[|old(dir.trail)|..] == [d1, dir.Now()];
    }

    // --------------------------------------------------------------------- flush

    /** Flush one frozen memtable. Its records join the tables, and at every durable step a start
        finds either the tables before or the tables after. */
    method Flush(rs: seq<Record>, generation: nat) returns (ok: bool)
      requires Valid() && |rs| > 0 && Sorted(rs) && forall i :: 0 <= i < |rs| ==> rs[i].entry.seqno > 0
      requires forall k, e, e' :: Held(readers, k, e) && Find(rs, k) == Some(e') ==> e.seqno != e'.seqno
      modifies this, dir
      ensures ok && Valid()
      ensures forall k :: Newest(readers, k) == Better(old(Newest(readers, k)), Find(rs, k))
      ensures forall k, e :: Held(readers, k, e) <==> old(Held(readers, k, e)) || Find(rs, k) == Some(e)
      ensures forall t :: t in readers <==> t in old(readers) || t == Table(old(nextFileId), Level0, generation, rs)
      ensures dir.wal == old(dir.wal)
      ensures old(dir.trail) <= dir.trail && Between(dir.trail[|old(dir.trail)|..], dir.wal, old(readers), readers)
    {
      hide Loads, Between, Distinct, Reflects, Newest, Held, Ordered;
      ghost var before, trail0, d0 := readers, dir.trail, dir.Now();
      LoadsCurrent(d0, readers);
      BetweenNone(dir.trail, dir.wal, readers, readers);
      var t := Table(nextFileId, Level0, generation, rs);
      nextFileId := nextFileId + 1;
      dir.WriteTable(t.id, File(generation, rs));
      LoadsWithout(d0, dir.Now(), readers, t.id);
      LoadsOnDisk(dir.Now(), readers);
      BetweenMore(trail0, dir.trail, |trail0|, dir.Now(), dir.wal, readers, readers);
      ghost var trail1 := dir.trail;
      var count; ghost var after;
      count, after := LiveAfterFlush(readers, rs, liveKeys, visible);
      FlushedSet(readers, t);
      FlushedReflects(readers, t, after);
      ok := Publish(readers + [t], count, after);
      FlushedEffects(before, t, readers);
      BetweenNone(dir.trail, dir.wal, readers, readers);
      BetweenJoin(trail0, trail1, dir.trail, dir.trail, dir.wal, before, readers);
    }

    // ---------------------------------------------------------------- compaction

    predicate NeedsCompaction()
      reads this
    {
      |OfLevel(readers, Level0)| >= trigger
    }

    static method OutputGeneration(selected: seq<Table>) returns (g: nat)
      ensures g == HighGeneration(selected)
    {
      g := 0;
      var i := 0;
      while i < |selected|
        invariant 0 <= i <= |selected| && g == HighGeneration(selected[..i])
      {
        assert selected[..i + 1][..i] == selected[..i];
        if selected[i].generation > g {
          g := selected[i].generation;
        }
        i := i + 1;
      }
      assert selected[..i] == selected;
    }

    /** Write the output table, unless every merged record was dropped. */
    method WriteOutput(kept: seq<Record>, unselected: seq<Table>, generation: nat) returns (after: seq<Table>)
      requires Valid() && forall t :: t in unselected ==> t in readers
      modifies this`nextFileId, dir
      ensures Valid() && old(nextFileId) <= nextFileId && dir.wal == old(dir.wal)
      ensures after == unselected + (if |kept| == 0 then [] else [Table(old(nextFileId), Level1, generation, kept)])
      ensures AllOnDisk(dir.Now(), after) && forall i :: 0 <= i < |after| ==> after[i].id < nextFileId
      ensures old(dir.trail) <= dir.trail && Between(dir.trail[|old(dir.trail)|..], dir.wal, readers, readers)
    {
      hide Loads, Between, TableSet, Reflects, Ordered, HighSeq, HighGeneration;
      after := unselected;
      ghost var d0, t0 := dir.Now(), dir.trail;
      LoadsCurrent(d0, readers);
      BetweenNone(t0, dir.wal, readers, readers);
      LoadsOnDisk(d0, readers);
      forall i | 0 <= i < |unselected| ensures OnDisk(d0, unselected[i]) && unselected[i].id < nextFileId {
        assert unselected[i] in readers;
        var j :| 0 <= j < |readers| && readers[j] == unselected[i];
        assert OnDisk(d0, readers[j]);
      }
      if |kept| == 0 {
        return;
      }
      var id := nextFileId;
      nextFileId := nextFileId + 1;
      dir.WriteTable(id, File(generation, kept));
      LoadsWithout(d0, dir.Now(), readers, id);
      BetweenMore(t0, dir.trail, |t0|, dir.Now(), dir.wal, readers, readers);
      after := unselected + [Table(id, Level1, generation, kept)];
    }

    /** Delete the input files of a published compaction. */
    method RemoveObsolete(selected: seq<Table>)
      requires Valid() && forall t :: t in selected ==> !HasId(readers, t.id)
      modifies dir
      ensures Valid() && dir.wal == old(dir.wal)
      ensures forall i :: 0 <= i < |selected| ==> selected[i].id !in dir.files
      ensures old(dir.trail) <= dir.trail && Between(dir.trail[|old(dir.trail)|..], dir.wal, readers, readers)
    {
      hide Loads, Between, TableSet, Reflects, Ordered;
      LoadsCurrent(dir.Now(), readers);
      BetweenNone(dir.trail, dir.wal, readers, readers);
      var i := 0;
      while i < |selected|
        invariant 0 <= i <= |selected| && Valid() && dir.wal == old(dir.wal)
        invariant forall j :: 0 <= j < i ==> selected[j].id !in dir.files
        invariant dir.current == old(dir.current) && dir.manifests == old(dir.manifests)
        invariant old(dir.trail) <= dir.trail && Between(dir.trail[|old(dir.trail)|..], dir.wal, readers, readers)
      {
        ghost var d0, t0 := dir.Now(), dir.trail;
        dir.RemoveTable(selected[i].id);
        assert selected[i] in selected;
        LoadsWithout(d0, dir.Now(), readers, selected[i].id);
        BetweenMore(t0, dir.trail, |old(dir.trail)|, dir.Now(), dir.wal, readers, readers);
        i := i + 1;
      }
    }

    /** Compact level 0. Readers see the same map before and after, and a start finds the old tables or
        the new ones. Of level 0 exactly the tables the compaction starts from are gone, which is all of
        them when forced; the unselected tables stay, and one table of level 1 at most is new. It holds the
        newest selected entry of each key, and a tombstone exactly when an unselected table has something
        for it to hide. The files of the selected tables are removed. */
    method CompactLevel0(force: bool) returns (performed: bool, ghost selected: seq<Table>, ghost unselected: seq<Table>)
      requires Valid()
      modifies this, dir
      ensures Valid() && visible == old(visible) && liveKeys == old(liveKeys)
      ensures performed <==> Base(old(readers), trigger, maxTables, force) != []
      ensures performed <==> |OfLevel(old(readers), Level0)| >= if force then 1 else trigger
      ensures |OfLevel(readers, Level0)| == Left(|OfLevel(old(readers), Level0)|, trigger, maxTables, force)
      ensures !performed ==> readers == old(readers)
      ensures forall k, e :: Held(readers, k, e) ==> old(Held(readers, k, e))
      ensures performed ==> Picked(old(readers), Base(old(readers), trigger, maxTables, force), selected, unselected)
      ensures performed ==> Replaced(old(readers), Base(old(readers), trigger, maxTables, force), selected, unselected, readers, old(nextFileId))
      ensures performed ==> forall i :: 0 <= i < |selected| ==> selected[i].id !in dir.files
      ensures dir.wal == old(dir.wal)
      ensures old(dir.trail) <= dir.trail && Between(dir.trail[|old(dir.trail)|..], dir.wal, old(readers), readers)
    {
      hide Picked, Replaced, Chosen, Loads, Between, Reflects, Distinct, Disjoint1, Ordered, Held, HighSeq, HighGeneration, OfLevel, Base, Merged, Kept;
      BetweenNone(dir.trail, dir.wal, readers, readers);
      LoadsCurrent(dir.Now(), readers);
      var chosen, rest, lo, hi := SelectInputs(readers, trigger, maxTables, force);
      selected, unselected, performed := chosen, rest, |chosen| > 0;
      BaseSize(readers, trigger, maxTables, force);
      if !performed {
        return;
      }
      ghost var before, base, id := readers, Base(readers, trigger, maxTables, force), nextFileId;
      BaseFacts(readers, trigger, maxTables, force);
      UnselectedGood(readers, base, selected, unselected, lo, hi);
      var generation := OutputGeneration(chosen);
      var merged := MergeTables(chosen);
      var kept := DropTombstones(merged, rest);
      var after := WriteOutput(kept, rest, generation);
      ghost var d1 := dir.trail;
      CompactedIsTableSet(before, base, selected, unselected, lo, hi, id, generation);
      CompactedReflects(before, base, selected, unselected, lo, hi, id, generation, visible);
      var ok := Publish(after, liveKeys, visible);
      ghost var d2 := dir.trail;
      CompactedEffects(before, base, selected, unselected, lo, hi, id, generation, readers);
      CompactedReplaces(before, base, selected, unselected, lo, hi, id, generation, readers);
      BaseExact(before, trigger, maxTables, force);
      FewerLevel0(before, base, selected, unselected, readers, id);
      RemoveObsolete(chosen);
      BetweenJoin(old(dir.trail), d1, d2, dir.trail, dir.wal, before, readers);
    }
  }

  lemma BetweenJoin(t0: seq<Disk>, t1: seq<Disk>, t2: seq<Disk>, t3: seq<Disk>, wal: seq<Op>, a: seq<Table>, b: seq<Table>)
    requires t0 <= t1 <= t2 <= t3
    requires Between(t1[|t0|..], wal, a, a) && Between(t2[|t1|..], wal, a, b) && Between(t3[|t2|..], wal, b, b)
    ensures t0 <= t3 && Between(t3[|t0|..], wal, a, b)
  {
    var n := |t0|;
    forall i | 0 <= i < |t3| - n ensures t3[n..][i].wal == wal && (Loads(t3[n..][i], a) || Loads(t3[n..][i], b)) {
      var d := t3[n + i];
      if n + i < |t1| { assert d == t1[n..][i]; }
      else if n + i < |t2| { assert d == t2[|t1|..][n + i - |t1|]; }
      else { assert d == t3[|t2|..][n + i - |t2|]; }
    }
  }

  lemma UnselectedGood(ts: seq<Table>, base: seq<Table>, selected: seq<Table>, unselected: seq<Table>, lo: Key, hi: Key)
    requires AllGood(ts) && AllGood(base) && Chosen(ts, base, selected, unselected, lo, hi)
    ensures AllGood(unselected) && forall t :: t in unselected ==> t in ts
  {
    forall i | 0 <= i < |unselected| ensures Good(unselected[i]) && unselected[i] in ts {
      assert unselected[i] in selected + unselected;
    }
  }

  /** A compaction leaves the map that readers see as it was. */
  lemma CompactedReflects(ts: seq<Table>, base: seq<Table>, selected: seq<Table>, unselected: seq<Table>, lo: Key, hi: Key,
                          id: nat, generation: nat, m: map<Key, Text>)
    requires TableSet(ts) && AllGood(base) && AllGood(selected) && Chosen(ts, base, selected, unselected, lo, hi) && Reflects(ts, m)
    ensures Reflects(Compacted(selected, unselected, id, generation), m)
  {
    var all := selected + unselected;
    SameDistinct(ts, all);
    forall k ensures Visible(Newest(Compacted(selected, unselected, id, generation), k)) == At(m, k) {
      forall e ensures Held(ts, k, e) <==> Held(all, k, e) {
        if Held(ts, k, e) { SameHeld(ts, all, k, e); }
        if Held(all, k, e) { SameHeld(all, ts, k, e); }
      }
      CompactionPreserves(ts, selected, unselected, id, generation, k);
    }
  }

  lemma CompactedEffects(ts: seq<Table>, base: seq<Table>, selected: seq<Table>, unselected: seq<Table>, lo: Key, hi: Key,
                         id: nat, generation: nat, after: seq<Table>)
    requires TableSet(ts) && AllGood(base) && AllGood(selected) && Chosen(ts, base, selected, unselected, lo, hi)
    requires |base| > 0 && UniqueIds(base) && forall t :: t in base ==> t in ts && t.level == Level0
    requires SameTables(Compacted(selected, unselected, id, generation), after) && forall i :: 0 <= i < |ts| ==> ts[i].id < id
    ensures forall k, e :: Held(after, k, e) ==> Held(ts, k, e)
    ensures forall t :: t in selected ==> !HasId(after, t.id)
  {
    var out := Compacted(selected, unselected, id, generation);
    forall k, e | Held(after, k, e) ensures Held(ts, k, e) {
      SameHeld(after, out, k, e);
      CompactedHeld(selected, unselected, id, generation, k, e);
      NewestIsMax(selected, k);
      HeldJoin(selected, unselected, k, e);
      SameHeld(selected + unselected, ts, k, e);
    }
    forall t, i | t in selected && 0 <= i < |after| ensures after[i].id != t.id {
      assert after[i] in out;
      assert t in selected + unselected && t in ts;
      if after[i] in unselected { NotBothSides(selected, unselected, t, after[i]); }
    }
  }

  ghost predicate Picked(ts: seq<Table>, base: seq<Table>, selected: seq<Table>, unselected: seq<Table>) {
    AllGood(ts) && AllGood(base) && exists lo, hi :: Chosen(ts, base, selected, unselected, lo, hi)
  }

  /** The tables after a compaction, and everything they hold. */
  ghost predicate Replaced(ts: seq<Table>, base: seq<Table>, selected: seq<Table>, unselected: seq<Table>, after: seq<Table>, id: nat) {
    && (forall t :: t in after && t.level == Level0 <==> t in ts && t.level == Level0 && t !in base)
    && (forall t :: t in unselected ==> t in after)
    && (forall t :: t in after && t !in unselected ==> t.level == Level1 && t.id == id && t.generation == HighGeneration(selected))
    && (forall k, e :: Held(after, k, e) <==>
          Held(unselected, k, e) || (Newest(selected, k) == Some(e) && (e.deleted ==> Shadowed(unselected, k, e))))
  }

  lemma CompactedReplaces(ts: seq<Table>, base: seq<Table>, selected: seq<Table>, unselected: seq<Table>, lo: Key, hi: Key,
                          id: nat, generation: nat, after: seq<Table>)
    requires AllGood(ts) && AllGood(base) && AllGood(selected) && Chosen(ts, base, selected, unselected, lo, hi)
    requires forall t :: t in base ==> t in ts && t.level == Level0
    requires SameTables(Compacted(selected, unselected, id, generation), after) && generation == HighGeneration(selected)
    ensures Picked(ts, base, selected, unselected) && Replaced(ts, base, selected, unselected, after, id)
  {
    hide Shadowed, ClosedRange, Good, HighGeneration;
    var out := Compacted(selected, unselected, id, generation);
    forall k, e ensures Held(after, k, e) <==>
                          Held(unselected, k, e) || (Newest(selected, k) == Some(e) && (e.deleted ==> Shadowed(unselected, k, e)))
    {
      if Held(after, k, e) { SameHeld(after, out, k, e); }
      if Held(out, k, e) { SameHeld(out, after, k, e); }
      CompactedHeld(selected, unselected, id, generation, k, e);
    }
    forall t ensures t in after && t.level == Level0 <==> t in ts && t.level == Level0 && t !in base {
      assert t in after <==> t in out;
      assert t in ts <==> t in selected + unselected;
      if t in base && t in unselected { NotBothSides(selected, unselected, t, t); }
    }
  }

  /** How many level-0 tables a compaction leaves of n: none when forced, all below the trigger, and
      otherwise those beyond the limit on its inputs. */
  function Left(n: nat, trigger: nat, maxTables: nat, force: bool): nat {
    if force then 0 else if n < trigger then n else if n <= maxTables then 0 else n - maxTables
  }

  /** Exactly the base is gone from level 0: what ends the automatic compaction loop. */
  lemma FewerLevel0(ts: seq<Table>, base: seq<Table>, selected: seq<Table>, unselected: seq<Table>, after: seq<Table>, id: nat)
    requires UniqueIds(ts) && UniqueIds(base) && UniqueIds(after) && Replaced(ts, base, selected, unselected, after, id)
    requires forall t :: t in base ==> t in ts && t.level == Level0
    ensures |OfLevel(after, Level0)| + |base| == |OfLevel(ts, Level0)|
  {
    hide Held, Shadowed, Newest;
    var a, b := OfLevel(after, Level0), OfLevel(ts, Level0);
    OfLevelMembers(after, Level0);
    OfLevelMembers(ts, Level0);
    var s := a + base;
    forall i, j | 0 <= i < j < |s| ensures s[i].id != s[j].id {
      assert s[i] in s && s[j] in s;
      if i < |a| <= j && s[i].id == s[j].id { SameId(ts, s[i], s[j]); }
    }
    FewerThan(b, s);
    FewerThan(s, b);
  }

  lemma BaseSize(ts: seq<Table>, trigger: nat, maxTables: nat, force: bool)
    requires UniqueIds(ts) && 2 <= trigger <= maxTables
    ensures Base(ts, trigger, maxTables, force) != [] <==> |OfLevel(ts, Level0)| >= if force then 1 else trigger
  {
    BaseExact(ts, trigger, maxTables, force);
  }

  lemma RefusedLoads(d: Disk)
    requires Refuses(d)
    ensures !Blank(d) && !exists ts :: Loads(d, ts) && TableSet(ts)
  {}

  lemma ListedAlone(d: Disk, ts: seq<Table>)
    requires Sound(d) && Lists(d, ts)
    ensures Loads(d, ts) && Kin(ts) && d.current.Some?
  {}

  lemma OnlyOneList(d: Disk, ts: seq<Table>)
    requires Lists(d, ts) && !TableSet(ts)
    ensures !Blank(d) && !exists us :: Loads(d, us) && TableSet(us)
  {
    forall us | Loads(d, us) ensures us == ts { ListsOnce(d, ts, us); }
  }

  lemma KinOrdered(ts: seq<Table>)
    requires Kin(ts)
    ensures Ordered(ts)
  {}

  lemma EmptyReflects()
    ensures Reflects([], map[]) && TableSet([]) && Ordered([])
  {}

  lemma Unlistable(d: Disk, i: nat)
    requires d.current.Some? && d.current.value in d.manifests && i < |d.manifests[d.current.value].tables|
    requires var m := d.manifests[d.current.value].tables[i];
             m.id !in d.files || (var t := Table(m.id, m.level, d.files[m.id].generation, d.files[m.id].records);
                                  |t.records| == 0 || MetaOf(t) != m)
    ensures !exists ts :: Lists(d, ts)
  {
    var m := d.manifests[d.current.value];
    forall ts | Lists(d, ts) ensures !Listed(d, ts[i], m.tables[i]) {}
  }

  lemma SameReflects(a: seq<Table>, b: seq<Table>, m: map<Key, Text>)
    requires SameTables(a, b) && Distinct(a) && Reflects(a, m)
    ensures Reflects(b, m)
  {
    forall k ensures Visible(Newest(b, k)) == At(m, k) { SameNewest(a, b, k); }
  }

  lemma FlushedReflects(ts: seq<Table>, t: Table, m: map<Key, Text>)
    requires forall k :: At(m, k) == Visible(Better(Newest(ts, k), Find(t.records, k)))
    ensures Reflects(ts + [t], m)
  {
    assert (ts + [t])[..|ts|] == ts;
  }

  lemma FlushedEffects(ts: seq<Table>, t: Table, after: seq<Table>)
    requires SameTables(ts + [t], after) && Distinct(ts + [t])
    ensures forall k :: Newest(after, k) == Better(Newest(ts, k), Find(t.records, k))
    ensures forall k, e :: Held(after, k, e) <==> Held(ts, k, e) || Find(t.records, k) == Some(e)
    ensures forall x :: x in after <==> x in ts || x == t
  {
    var us := ts + [t];
    assert us[..|ts|] == ts;
    forall k ensures Newest(after, k) == Better(Newest(ts, k), Find(t.records, k)) { SameNewest(us, after, k); }
    forall k, e ensures Held(after, k, e) <==> Held(ts, k, e) || Find(t.records, k) == Some(e) {
      HeldJoin(ts, [t], k, e);
      HeldOne(t, k, e);
      if Held(after, k, e) { SameHeld(after, us, k, e); }
      if Held(us, k, e) { SameHeld(us, after, k, e); }
    }
  }

  lemma FlushedSet(ts: seq<Table>, t: Table)
    requires TableSet(ts) && Good(t) && t.level == Level0 && forall i :: 0 <= i < |ts| ==> ts[i].id != t.id
    requires forall k, e, e' :: Held(ts, k, e) && Find(t.records, k) == Some(e') ==> e.seqno != e'.seqno
    ensures TableSet(ts + [t])
  {
    var us := ts + [t];
    forall i, j, k, a, b | i != j && HeldAt(us, i, k, a) && HeldAt(us, j, k, b) ensures a.seqno != b.seqno {
      if i < |ts| { assert HeldAt(ts, i, k, a); }
      if j < |ts| { assert HeldAt(ts, j, k, b); }
    }
    forall i, j | 0 <= i < j < |us| && us[i].level == Level1 && us[j].level == Level1 ensures Apart(us[i], us[j]) {
      assert Apart(ts[i], ts[j]);
    }
  }
}
