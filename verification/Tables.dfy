/** Sets of tables: the newest entry for a key, merging, and dropping tombstones. */
module Tables {
  import opened Basics
  import opened Records

  datatype Level = Level0 | Level1

  datatype Table = Table(id: nat, level: Level, generation: nat, records: seq<Record>)

  /** What every written table satisfies: some records, strictly sorted, numbered from one. */
  ghost predicate Good(t: Table) {
    && |t.records| > 0 && Sorted(t.records)
    && forall i :: 0 <= i < |t.records| ==> t.records[i].entry.seqno > 0
  }

  ghost predicate AllGood(ts: seq<Table>) {
    forall i :: 0 <= i < |ts| ==> Good(ts[i])
  }

  function Smallest(t: Table): Key
    requires |t.records| > 0
  {
    t.records[0].key
  }

  function Largest(t: Table): Key
    requires |t.records| > 0
  {
    t.records[|t.records| - 1].key
  }

  predicate InRange(k: Key, lo: Key, hi: Key) {
    AtMost(lo, k) && AtMost(k, hi)
  }

  predicate Overlap(lo: Key, hi: Key, lo': Key, hi': Key) {
    AtMost(lo, hi') && AtMost(lo', hi)
  }

  lemma KeyInRange(t: Table, i: nat)
    requires Good(t) && i < |t.records|
    ensures InRange(t.records[i].key, Smallest(t), Largest(t))
  {
    var n := |t.records| - 1;
    LessIrreflexive(t.records[i].key);
    if i > 0 { LessAtMost(t.records[0].key, t.records[i].key, t.records[i].key); }
    if i < n { LessAtMost(t.records[i].key, t.records[n].key, t.records[n].key); }
  }

  /** Outside its key range a table finds nothing, so skipping it is sound. */
  lemma FoundInRange(t: Table, k: Key)
    requires Good(t) && Find(t.records, k).Some?
    ensures InRange(k, Smallest(t), Largest(t))
  {
    var i := FindSome(t.records, k);
    KeyInRange(t, i);
  }

  function Lookup(t: Table, k: Key): Option<Entry>
    requires |t.records| > 0
  {
    if InRange(k, Smallest(t), Largest(t)) then Find(t.records, k) else None
  }

  lemma LookupIsFind(t: Table, k: Key)
    requires Good(t)
    ensures Lookup(t, k) == Find(t.records, k)
  {
    if Find(t.records, k).Some? { FoundInRange(t, k); }
  }

  // ------------------------------------------------------------ the newest entry

  /** The candidate replaces the best so far only when it is strictly newer. */
  function Better(best: Option<Entry>, c: Option<Entry>): Option<Entry> {
    if c.Some? && (best.None? || c.value.seqno > best.value.seqno) then c else best
  }

  function Newest(ts: seq<Table>, k: Key): Option<Entry> {
    if |ts| == 0 then None else Better(Newest(ts[..|ts| - 1], k), Find(ts[|ts| - 1].records, k))
  }

  ghost predicate HeldAt(ts: seq<Table>, i: int, k: Key, e: Entry) {
    0 <= i < |ts| && Find(ts[i].records, k) == Some(e)
  }

  ghost predicate Held(ts: seq<Table>, k: Key, e: Entry) {
    exists i :: HeldAt(ts, i, k, e)
  }

  /** No two tables hold entries of one key with one sequence number. */
  ghost predicate Distinct(ts: seq<Table>) {
    forall i, j, k, a, b :: i != j && HeldAt(ts, i, k, a) && HeldAt(ts, j, k, b) ==> a.seqno != b.seqno
  }

  lemma {:induction false} NewestIsMax(ts: seq<Table>, k: Key)
    ensures Newest(ts, k).Some? ==> Held(ts, k, Newest(ts, k).value)
    ensures forall e :: Held(ts, k, e) ==> Newest(ts, k).Some? && e.seqno <= Newest(ts, k).value.seqno
  {
    if |ts| > 0 {
      var n := |ts| - 1;
      NewestIsMax(ts[..n], k);
      HeldSplit(ts, k);
    }
  }

  lemma HeldSplit(ts: seq<Table>, k: Key)
    requires |ts| > 0
    ensures forall e :: Held(ts, k, e) <==> (Held(ts[..|ts| - 1], k, e) || Find(ts[|ts| - 1].records, k) == Some(e))
  {
    var n := |ts| - 1;
    forall e ensures Held(ts, k, e) <==> (Held(ts[..n], k, e) || Find(ts[n].records, k) == Some(e)) {
      if Held(ts, k, e) {
        var i :| HeldAt(ts, i, k, e);
        if i < n { assert HeldAt(ts[..n], i, k, e); }
      }
      if Held(ts[..n], k, e) {
        var i :| HeldAt(ts[..n], i, k, e);
        assert HeldAt(ts, i, k, e);
      }
      if Find(ts[n].records, k) == Some(e) { assert HeldAt(ts, n, k, e); }
    }
  }

  lemma HeldOnce(ts: seq<Table>, k: Key, a: Entry, b: Entry)
    requires Distinct(ts) && Held(ts, k, a) && Held(ts, k, b) && a.seqno == b.seqno
    ensures a == b
  {
    var i :| HeldAt(ts, i, k, a);
    var j :| HeldAt(ts, j, k, b);
  }

  /** The newest entry is the held entry with the greatest number, whatever the order of tables. */
  lemma NewestUnique(ts: seq<Table>, k: Key, e: Entry)
    requires Distinct(ts) && Held(ts, k, e) && forall x :: Held(ts, k, x) ==> x.seqno <= e.seqno
    ensures Newest(ts, k) == Some(e)
  {
    NewestIsMax(ts, k);
    HeldOnce(ts, k, e, Newest(ts, k).value);
  }

  lemma NewestSame(ts: seq<Table>, us: seq<Table>, k: Key)
    requires Distinct(us) && forall e :: Held(ts, k, e) <==> Held(us, k, e)
    ensures Newest(ts, k) == Newest(us, k)
  {
    NewestIsMax(ts, k);
    NewestIsMax(us, k);
    if Newest(ts, k).Some? { NewestUnique(us, k, Newest(ts, k).value); }
  }

  // -------------------------------------------------------------------- merging

  /** Walk one table's records into the merged map. */
  function Absorb(m: seq<Record>, rs: seq<Record>): seq<Record> {
    if |rs| == 0 then m
    else
      var before, r := Absorb(m, rs[..|rs| - 1]), rs[|rs| - 1];
      if Better(Find(before, r.key), Some(r.entry)) == Find(before, r.key) then before else Upsert(before, r.key, r.entry)
  }

  function Merged(ts: seq<Table>): seq<Record> {
    if |ts| == 0 then [] else Absorb(Merged(ts[..|ts| - 1]), ts[|ts| - 1].records)
  }

  lemma {:induction false} AbsorbFinds(m: seq<Record>, rs: seq<Record>, k: Key)
    requires Sorted(m) && Sorted(rs)
    ensures Sorted(Absorb(m, rs)) && Find(Absorb(m, rs), k) == Better(Find(m, k), Find(rs, k))
  {
    if |rs| > 0 {
      var n := |rs| - 1;
      var before, r := Absorb(m, rs[..n]), rs[n];
      AbsorbFinds(m, rs[..n], k);
      AbsorbFinds(m, rs[..n], r.key);
      assert rs == rs[..n] + [r];
      FindSplit(rs[..n], [r], k);
      LastUnseen(rs);
      UpsertSorted(before, r.key, r.entry);
      UpsertFind(before, r.key, r.entry, k);
    }
  }

  lemma LastUnseen(rs: seq<Record>)
    requires Sorted(rs) && |rs| > 0
    ensures Find(rs[..|rs| - 1], rs[|rs| - 1].key) == None
  {
    LessIrreflexive(rs[|rs| - 1].key);
    FindAbsent(rs[..|rs| - 1], rs[|rs| - 1].key);
  }

  /** The merged map holds, for every key, the newest entry among the merged tables. */
  lemma {:induction false} MergedFinds(ts: seq<Table>, k: Key)
    requires AllGood(ts)
    ensures Sorted(Merged(ts)) && Find(Merged(ts), k) == Newest(ts, k)
  {
    if |ts| > 0 {
      var n := |ts| - 1;
      MergedFinds(ts[..n], k);
      assert Good(ts[n]);
      AbsorbFinds(Merged(ts[..n]), ts[n].records, k);
    }
  }

  // ---------------------------------------------------------- dropping tombstones

  predicate Blocks(u: Table, k: Key, tombstone: Entry) {
    var e := Find(u.records, k);
    e.Some? && !e.value.deleted && e.value.seqno <= tombstone.seqno
  }

  predicate CanDrop(us: seq<Table>, k: Key, tombstone: Entry) {
    forall i :: 0 <= i < |us| ==> !Blocks(us[i], k, tombstone)
  }

  function Kept(m: seq<Record>, us: seq<Table>): seq<Record> {
    if |m| == 0 then []
    else
      var r := m[|m| - 1];
      Kept(m[..|m| - 1], us) + (if r.entry.deleted && CanDrop(us, r.key, r.entry) then [] else [r])
  }

  lemma {:induction false} KeptSubset(m: seq<Record>, us: seq<Table>, r: Record)
    ensures r in Kept(m, us) <==> r in m && !(r.entry.deleted && CanDrop(us, r.key, r.entry))
  {
    if |m| > 0 {
      KeptSubset(m[..|m| - 1], us, r);
      assert m == m[..|m| - 1] + [m[|m| - 1]];
    }
  }

  lemma {:induction false} KeptSorted(m: seq<Record>, us: seq<Table>)
    requires Sorted(m)
    ensures Sorted(Kept(m, us))
  {
    if |m| > 0 {
      var n := |m| - 1;
      KeptSorted(m[..n], us);
      forall j | 0 <= j < |Kept(m[..n], us)| ensures Less(Kept(m[..n], us)[j].key, m[n].key) {
        KeptSubset(m[..n], us, Kept(m[..n], us)[j]);
      }
    }
  }

  lemma FindIsMember(s: seq<Record>, k: Key, e: Entry)
    requires Sorted(s)
    ensures Find(s, k) == Some(e) <==> Record(k, e) in s
  {
    if Record(k, e) in s {
      var i :| 0 <= i < |s| && s[i] == Record(k, e);
      FindAt(s, i);
    }
    if Find(s, k) == Some(e) {
      var i := FindSome(s, k);
      assert s[i] == Record(k, e);
    }
  }

  lemma KeptFinds(m: seq<Record>, us: seq<Table>, k: Key, e: Entry)
    requires Sorted(m)
    ensures Find(Kept(m, us), k) == Some(e) <==> Find(m, k) == Some(e) && !(e.deleted && CanDrop(us, k, e))
  {
    KeptSorted(m, us);
    KeptSubset(m, us, Record(k, e));
    FindIsMember(m, k, e);
    FindIsMember(Kept(m, us), k, e);
  }

  // ------------------------------------------------------------------ compaction

  /** The tables after a compaction: the unselected ones and the output, if anything is left. */
  function Compacted(selected: seq<Table>, unselected: seq<Table>, id: nat, generation: nat): seq<Table> {
    var kept := Kept(Merged(selected), unselected);
    unselected + (if |kept| == 0 then [] else [Table(id, Level1, generation, kept)])
  }

  lemma HeldJoin(a: seq<Table>, b: seq<Table>, k: Key, e: Entry)
    ensures Held(a + b, k, e) <==> Held(a, k, e) || Held(b, k, e)
  {
    if Held(a + b, k, e) {
      var i :| HeldAt(a + b, i, k, e);
      if i < |a| { assert HeldAt(a, i, k, e); } else { assert HeldAt(b, i - |a|, k, e); }
    }
    if Held(a, k, e) {
      var i :| HeldAt(a, i, k, e);
      assert HeldAt(a + b, i, k, e);
    }
    if Held(b, k, e) {
      var i :| HeldAt(b, i, k, e);
      assert HeldAt(a + b, |a| + i, k, e);
    }
  }

  lemma HeldOne(t: Table, k: Key, e: Entry)
    ensures Held([t], k, e) <==> Find(t.records, k) == Some(e)
  {
    if Find(t.records, k) == Some(e) { assert HeldAt([t], 0, k, e); }
  }

  /** Who holds what after a compaction. */
  lemma CompactedHeld(selected: seq<Table>, unselected: seq<Table>, id: nat, generation: nat, k: Key, e: Entry)
    requires AllGood(selected)
    ensures Held(Compacted(selected, unselected, id, generation), k, e) <==>
            Held(unselected, k, e) || (Newest(selected, k) == Some(e) && (e.deleted ==> Shadowed(unselected, k, e)))
  {
    hide Shadowed;
    var kept := Kept(Merged(selected), unselected);
    OutputExact(selected, unselected, k, e);
    var out := if |kept| == 0 then [] else [Table(id, Level1, generation, kept)];
    HeldJoin(unselected, out, k, e);
    HeldOne(Table(id, Level1, generation, kept), k, e);
  }

  /** An older or equally old live entry of the key lies in one of these tables. */
  ghost predicate Shadowed(us: seq<Table>, k: Key, tombstone: Entry) {
    exists e :: Held(us, k, e) && !e.deleted && e.seqno <= tombstone.seqno
  }

  lemma ShadowedBlocks(us: seq<Table>, k: Key, tombstone: Entry)
    ensures Shadowed(us, k, tombstone) <==> !CanDrop(us, k, tombstone)
  {
    if Shadowed(us, k, tombstone) {
      var e :| Held(us, k, e) && !e.deleted && e.seqno <= tombstone.seqno;
      var i :| HeldAt(us, i, k, e);
      assert Blocks(us[i], k, tombstone);
    }
    if !CanDrop(us, k, tombstone) {
      var i :| 0 <= i < |us| && Blocks(us[i], k, tombstone);
      assert HeldAt(us, i, k, Find(us[i].records, k).value);
    }
  }

  /** What a compaction writes: the newest selected entry of each key, and a tombstone exactly when there
      is something left for it to hide. */
  lemma OutputExact(selected: seq<Table>, unselected: seq<Table>, k: Key, e: Entry)
    requires AllGood(selected)
    ensures Find(Kept(Merged(selected), unselected), k) == Some(e) <==>
            Newest(selected, k) == Some(e) && (e.deleted ==> Shadowed(unselected, k, e))
  {
    hide Shadowed, CanDrop;
    MergedFinds(selected, k);
    KeptFinds(Merged(selected), unselected, k, e);
    ShadowedBlocks(unselected, k, e);
  }

  /** Compaction keeps every live key's newest entry and revives nothing, whichever tables were
      selected and whichever tombstones were dropped. */
  lemma CompactionPreserves(ts: seq<Table>, selected: seq<Table>, unselected: seq<Table>, id: nat, generation: nat, k: Key)
    requires AllGood(selected) && Distinct(selected + unselected) && Distinct(ts)
    requires forall e :: Held(ts, k, e) <==> Held(selected + unselected, k, e)
    ensures var after := Compacted(selected, unselected, id, generation);
            && Visible(Newest(after, k)) == Visible(Newest(ts, k))
            && (Visible(Newest(ts, k)).Some? ==> Newest(after, k) == Newest(ts, k))
  {
    var all, after := selected + unselected, Compacted(selected, unselected, id, generation);
    NewestSame(ts, all, k);
    NewestIsMax(selected, k);
    NewestIsMax(all, k);
    NewestIsMax(after, k);
    CompactedDistinct(selected, unselected, id, generation);
    forall e ensures Held(all, k, e) <==> Held(selected, k, e) || Held(unselected, k, e) { HeldJoin(selected, unselected, k, e); }
    forall e ensures Held(after, k, e) <==> Held(unselected, k, e) || (Newest(selected, k) == Some(e) && !(e.deleted && CanDrop(unselected, k, e))) {
      CompactedHeld(selected, unselected, id, generation, k, e);
      ShadowedBlocks(unselected, k, e);
    }
    hide Shadowed;
    var s := Newest(selected, k);
    if s.Some? && s.value.deleted && CanDrop(unselected, k, s.value) {
      DroppedTombstone(all, selected, unselected, after, k);
    } else if Newest(all, k).Some? {
      NewestKept(all, selected, unselected, after, k);
    }
  }

  lemma NewestKept(all: seq<Table>, selected: seq<Table>, unselected: seq<Table>, after: seq<Table>, k: Key)
    requires Distinct(all) && Distinct(after) && Newest(all, k).Some?
    requires forall e :: Held(all, k, e) <==> Held(selected, k, e) || Held(unselected, k, e)
    requires forall e :: Held(after, k, e) <==> Held(unselected, k, e) || Newest(selected, k) == Some(e)
    ensures Newest(after, k) == Newest(all, k)
  {
    var e := Newest(all, k).value;
    NewestIsMax(all, k);
    NewestIsMax(selected, k);
    if Held(selected, k, e) { HeldOnce(all, k, e, Newest(selected, k).value); }
    NewestUnique(after, k, e);
  }

  lemma DroppedTombstone(all: seq<Table>, selected: seq<Table>, unselected: seq<Table>, after: seq<Table>, k: Key)
    requires Distinct(all) && Distinct(after)
    requires Newest(selected, k).Some? && Newest(selected, k).value.deleted && CanDrop(unselected, k, Newest(selected, k).value)
    requires forall e :: Held(all, k, e) <==> Held(selected, k, e) || Held(unselected, k, e)
    requires forall e :: Held(after, k, e) <==> Held(unselected, k, e)
    ensures Visible(Newest(after, k)) == Visible(Newest(all, k))
    ensures Visible(Newest(all, k)).Some? ==> Newest(after, k) == Newest(all, k)
  {
    var t := Newest(selected, k).value;
    NewestIsMax(all, k);
    NewestIsMax(selected, k);
    NewestIsMax(after, k);
    var e := Newest(all, k).value;
    if e.seqno > t.seqno {
      NewestUnique(after, k, e);
    } else {
      HeldOnce(all, k, e, t);
      if Newest(after, k).Some? { NotBlocked(unselected, k, t, Newest(after, k).value); }
    }
  }

  lemma NotBlocked(us: seq<Table>, k: Key, t: Entry, e: Entry)
    requires CanDrop(us, k, t) && Held(us, k, e) && e.seqno <= t.seqno
    ensures e.deleted
  {
    var i :| HeldAt(us, i, k, e);
    assert !Blocks(us[i], k, t);
  }

  lemma CompactedDistinct(selected: seq<Table>, unselected: seq<Table>, id: nat, generation: nat)
    requires AllGood(selected) && Distinct(selected + unselected)
    ensures Distinct(Compacted(selected, unselected, id, generation))
  {
    var after, all := Compacted(selected, unselected, id, generation), selected + unselected;
    forall i, j, k, a, b | i != j && HeldAt(after, i, k, a) && HeldAt(after, j, k, b) ensures a.seqno != b.seqno {
      var n := |unselected|;
      if i < n && j < n {
        assert HeldAt(all, |selected| + i, k, a) && HeldAt(all, |selected| + j, k, b);
      } else if i < n {
        OutputDistinct(selected, unselected, id, generation, k, i, a, b);
      } else {
        OutputDistinct(selected, unselected, id, generation, k, j, b, a);
      }
    }
  }

  lemma OutputDistinct(selected: seq<Table>, unselected: seq<Table>, id: nat, generation: nat, k: Key, i: int, a: Entry, b: Entry)
    requires AllGood(selected) && Distinct(selected + unselected)
    requires HeldAt(unselected, i, k, a) && Find(Kept(Merged(selected), unselected), k) == Some(b)
    ensures a.seqno != b.seqno
  {
    MergedFinds(selected, k);
    KeptFinds(Merged(selected), unselected, k, b);
    NewestIsMax(selected, k);
    var j :| HeldAt(selected, j, k, b);
    assert HeldAt(selected + unselected, j, k, b) && HeldAt(selected + unselected, |selected| + i, k, a);
  }

  /** The output stays inside the key range of what was selected. */
  lemma OutputInRange(selected: seq<Table>, unselected: seq<Table>, lo: Key, hi: Key, r: Record)
    requires AllGood(selected) && r in Kept(Merged(selected), unselected)
    requires forall i :: 0 <= i < |selected| ==> AtMost(lo, Smallest(selected[i])) && AtMost(Largest(selected[i]), hi)
    ensures InRange(r.key, lo, hi) && r.entry.seqno > 0
  {
    MergedFinds(selected, r.key);
    KeptSubset(Merged(selected), unselected, r);
    FindIsMember(Merged(selected), r.key, r.entry);
    NewestIsMax(selected, r.key);
    var i :| HeldAt(selected, i, r.key, r.entry);
    var j := FindSome(selected[i].records, r.key);
    FoundInRange(selected[i], r.key);
    AtMostTransitive(lo, Smallest(selected[i]), r.key);
    AtMostTransitive(r.key, Largest(selected[i]), hi);
  }
}
