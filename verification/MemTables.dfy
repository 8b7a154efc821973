/** The memtable and the set of memtables: one active table, and frozen ones newest first. */
module MemTables {
  import opened Basics
  import opened Records

  const MAX_KEY: nat := 1024
  const MAX_VALUE: nat := 1024 * 1024

  /** What an entry is charged beyond its key and value: the map's value type and four pointers. */
  const ENTRY_OVERHEAD: nat := 112

  predicate ValidKey(k: Key) { 0 < |k| <= MAX_KEY }

  predicate ValidValue(v: Text) { |v| <= MAX_VALUE }

  datatype Outcome = Done | Invalid

  datatype Frozen = Frozen(generation: nat, records: seq<Record>)

  function Charge(r: Record): nat {
    ENTRY_OVERHEAD + |r.key| + |r.entry.value|
  }

  function Footprint(s: seq<Record>): nat {
    if |s| == 0 then 0 else Charge(s[0]) + Footprint(s[1..])
  }

  /** Replacing an entry moves the footprint by the difference of the two charges. */
  lemma {:induction false} UpsertFootprint(s: seq<Record>, k: Key, e: Entry)
    requires Sorted(s)
    ensures var was := if Find(s, k).Some? then Charge(Record(k, Find(s, k).value)) else 0;
            was <= Footprint(s) && Footprint(Upsert(s, k, e)) == Footprint(s) - was + Charge(Record(k, e))
  {
    if |s| == 0 || Less(k, s[0].key) {
      AbsentBefore(s, k);
      assert ([Record(k, e)] + s)[1..] == s;
    } else if s[0].key == k {
      assert ([Record(k, e)] + s[1..])[1..] == s[1..];
    } else {
      assert ([s[0]] + Upsert(s[1..], k, e))[1..] == Upsert(s[1..], k, e);
      UpsertFootprint(s[1..], k, e);
    }
  }

  lemma AbsentBefore(s: seq<Record>, k: Key)
    requires Sorted(s) && (|s| == 0 || Less(k, s[0].key))
    ensures Find(s, k) == None
  {
    forall i | 0 <= i < |s| ensures s[i].key != k {
      LessIrreflexive(k);
      if i > 0 { LessTransitive(k, s[0].key, s[i].key); }
    }
    FindAbsent(s, k);
  }

  class MemTable {
    const generation: nat
    var entries: seq<Record>
    var usage: nat
    var frozen: bool

    ghost predicate Valid()
      reads this
    {
      Sorted(entries) && usage == Footprint(entries)
    }

    constructor (generation: nat)
      ensures Valid() && this.generation == generation && entries == [] && !frozen
    {
      this.generation := generation;
      entries, usage, frozen := [], 0, false;
    }

    /** A write needs an unfrozen table and a newer number than the entry it replaces. */
    method InsertOrAssign(k: Key, e: Entry) returns (r: Outcome)
      requires Valid()
      modifies `entries, `usage
      ensures Valid()
      ensures r.Done? <==> !frozen && (old(Find(entries, k)).Some? ==> e.seqno > old(Find(entries, k)).value.seqno)
      ensures entries == if r.Done? then Upsert(old(entries), k, e) else old(entries)
    {
      if frozen {
        return Invalid;
      }
      UpsertFootprint(entries, k, e);
      UpsertSorted(entries, k, e);
      var existing := Find(entries, k);
      if existing.Some? {
        if e.seqno <= existing.value.seqno {
          return Invalid;
        }
        usage := usage - Charge(Record(k, existing.value));
      }
      entries := Upsert(entries, k, e);
      usage := usage + Charge(Record(k, e));
      r := Done;
    }

    method Put(k: Key, v: Text, seqno: nat) returns (r: Outcome)
      requires Valid()
      modifies `entries, `usage
      ensures Valid()
      ensures r.Done? <==> ValidKey(k) && ValidValue(v) && seqno > 0 && !frozen
                           && (old(Find(entries, k)).Some? ==> seqno > old(Find(entries, k)).value.seqno)
      ensures entries == if r.Done? then Upsert(old(entries), k, Entry(v, seqno, false)) else old(entries)
    {
      if !ValidKey(k) || !ValidValue(v) || seqno == 0 {
        return Invalid;
      }
      r := InsertOrAssign(k, Entry(v, seqno, false));
    }

    method AddTombstone(k: Key, seqno: nat) returns (r: Outcome)
      requires Valid()
      modifies `entries, `usage
      ensures Valid()
      ensures r.Done? <==> ValidKey(k) && seqno > 0 && !frozen
                           && (old(Find(entries, k)).Some? ==> seqno > old(Find(entries, k)).value.seqno)
      ensures entries == if r.Done? then Upsert(old(entries), k, Entry([], seqno, true)) else old(entries)
    {
      if !ValidKey(k) || seqno == 0 {
        return Invalid;
      }
      r := InsertOrAssign(k, Entry([], seqno, true));
    }

    method Freeze()
      modifies `frozen
      ensures frozen
    {
      frozen := true;
    }
  }

  // ------------------------------------------------------------- layers of tables

  /** The first table that knows the key decides. */
  function FirstHit(layers: seq<seq<Record>>, k: Key): Option<Entry> {
    if |layers| == 0 then None
    else if Find(layers[0], k).Some? then Find(layers[0], k)
    else FirstHit(layers[1..], k)
  }

  ghost predicate NumberIn(s: seq<Record>, n: nat) {
    exists i :: 0 <= i < |s| && s[i].entry.seqno == n
  }

  ghost predicate Numbers(layers: seq<seq<Record>>, n: nat) {
    exists i :: 0 <= i < |layers| && NumberIn(layers[i], n)
  }

  /** Numbers in earlier layers are greater than numbers in later ones. */
  ghost predicate Descending(layers: seq<seq<Record>>) {
    forall i, j, a: nat, b: nat :: 0 <= i < j < |layers| && NumberIn(layers[i], a) && NumberIn(layers[j], b) ==> a > b
  }

  ghost predicate Within(layers: seq<seq<Record>>, low: nat, high: nat) {
    forall i, a: nat :: 0 <= i < |layers| && NumberIn(layers[i], a) ==> low < a <= high
  }

  lemma FoundNumber(s: seq<Record>, k: Key)
    requires Find(s, k).Some?
    ensures NumberIn(s, Find(s, k).value.seqno)
  {
    var i := FindSome(s, k);
  }

  lemma UpsertNumbers(s: seq<Record>, k: Key, e: Entry, n: nat)
    requires NumberIn(Upsert(s, k, e), n)
    ensures n == e.seqno || NumberIn(s, n)
  {
    var r := Upsert(s, k, e);
    var i :| 0 <= i < |r| && r[i].entry.seqno == n;
    UpsertMembers(s, k, e, r[i]);
    if r[i] in s { var j :| 0 <= j < |s| && s[j] == r[i]; }
  }

  /** The first hit is the newest: every other layer that knows the key has a smaller number. */
  lemma {:induction false} FirstHitIsNewest(layers: seq<seq<Record>>, k: Key, j: nat)
    requires Descending(layers) && j < |layers| && Find(layers[j], k).Some?
    ensures FirstHit(layers, k).Some? && Find(layers[j], k).value.seqno <= FirstHit(layers, k).value.seqno
  {
    if Find(layers[0], k).Some? {
      FoundNumber(layers[0], k);
      FoundNumber(layers[j], k);
    } else {
      assert Descending(layers[1..]) by {
        forall a, b, x: nat, y: nat | 0 <= a < b < |layers[1..]| && NumberIn(layers[1..][a], x) && NumberIn(layers[1..][b], y) ensures x > y {
          assert NumberIn(layers[a + 1], x) && NumberIn(layers[b + 1], y);
        }
      }
      FirstHitIsNewest(layers[1..], k, j - 1);
    }
  }

  lemma {:induction false} FirstHitSplit(a: seq<seq<Record>>, b: seq<seq<Record>>, k: Key)
    ensures FirstHit(a + b, k) == if FirstHit(a, k).Some? then FirstHit(a, k) else FirstHit(b, k)
  {
    if |a| == 0 {
      assert a + b == b;
    } else {
      assert (a + b)[1..] == a[1..] + b;
      FirstHitSplit(a[1..], b, k);
    }
  }

  function RecordsOf(fs: seq<Frozen>): seq<seq<Record>> {
    seq(|fs|, i requires 0 <= i < |fs| => fs[i].records)
  }

  ghost predicate FrozenOk(fs: seq<Frozen>, generation: nat) {
    && (forall i :: 0 <= i < |fs| ==> Sorted(fs[i].records) && |fs[i].records| > 0)
    && (forall i :: 0 <= i < |fs| ==> fs[i].generation < generation)
    && (forall i, j :: 0 <= i < j < |fs| ==> fs[i].generation > fs[j].generation)
  }

  class MemTableSet {
    const maxBytes: nat
    ghost const floor: nat
    var active: MemTable
    var immutables: seq<Frozen>
    var nextGeneration: nat
    var lastSequence: nat

    /** Newest first: the active table, then the frozen ones. */
    ghost function Layers(): seq<seq<Record>>
      reads this, active
    {
      [active.entries] + RecordsOf(immutables)
    }

    /** `floor` is the number the set started from: every number it holds is greater. */
    ghost predicate Valid()
      reads this, active
    {
      && active.Valid() && !active.frozen && active.generation < nextGeneration
      && FrozenOk(immutables, active.generation)
      && floor <= lastSequence && Descending(Layers()) && Within(Layers(), floor, lastSequence)
    }

    constructor (maxBytes: nat, sequence: nat, generation: nat)
      requires maxBytes > 0
      ensures Valid() && fresh(active) && floor == lastSequence == sequence && this.maxBytes == maxBytes
      ensures active.entries == [] && immutables == []
    {
      this.maxBytes, floor, lastSequence := maxBytes, sequence, sequence;
      active := new MemTable(generation);
      immutables, nextGeneration := [], generation + 1;
    }

    method LatestEntry(k: Key) returns (e: Option<Entry>)
      requires Valid()
      ensures e == FirstHit(Layers(), k)
    {
      FirstHitSplit([active.entries], RecordsOf(immutables), k);
      e := Find(active.entries, k);
      if e.Some? {
        return;
      }
      var i := 0;
      while i < |immutables|
        invariant 0 <= i <= |immutables|
        invariant FirstHit(RecordsOf(immutables), k) == FirstHit(RecordsOf(immutables)[i..], k)
      {
        e := Find(immutables[i].records, k);
        if e.Some? {
          return;
        }
        assert RecordsOf(immutables)[i..][1..] == RecordsOf(immutables)[i + 1..];
        i := i + 1;
      }
      e := None;
    }

    /** Freeze the active table and start a new one in front of it. */
    method PushFront()
      requires Valid() && |active.entries| > 0
      modifies this, active
      ensures Valid() && fresh(active) && active.entries == [] && lastSequence == old(lastSequence)
      ensures immutables == [Frozen(old(active.generation), old(active.entries))] + old(immutables)
      ensures Layers() == [[]] + old(Layers())
    {
      ghost var was := Layers();
      active.Freeze();
      immutables := [Frozen(active.generation, active.entries)] + immutables;
      active := new MemTable(nextGeneration);
      nextGeneration := nextGeneration + 1;
      assert Layers() == [[]] + was;
      PushedLayers(was, floor, lastSequence);
    }

    method RotateActive() returns (rotated: bool)
      requires Valid()
      modifies this, active
      ensures Valid() && (active == old(active) || fresh(active)) && lastSequence == old(lastSequence)
      ensures active.entries == []
      ensures rotated <==> old(active.entries) != []
      ensures immutables == (if rotated then [Frozen(old(active.generation), old(active.entries))] else []) + old(immutables)
      ensures forall k :: FirstHit(Layers(), k) == FirstHit(old(Layers()), k)
      ensures forall n: nat :: Numbers(Layers(), n) ==> Numbers(old(Layers()), n)
    {
      if |active.entries| == 0 {
        return false;
      }
      ghost var was := Layers();
      PushFront();
      forall k ensures FirstHit(Layers(), k) == FirstHit(was, k) { FirstHitSplit([[]], was, k); }
      PushedNumbers(was);
      rotated := true;
    }

    method RotateIfRequired()
      requires Valid()
      modifies this, active
      ensures Valid() && (active == old(active) || fresh(active)) && lastSequence == old(lastSequence)
      ensures active.usage < maxBytes || active.entries == []
      ensures active.entries == if old(active.usage) < maxBytes then old(active.entries) else []
      ensures immutables == (if old(active.usage) < maxBytes || old(active.entries) == [] then []
                             else [Frozen(old(active.generation), old(active.entries))]) + old(immutables)
      ensures forall k :: FirstHit(Layers(), k) == FirstHit(old(Layers()), k)
      ensures forall n: nat :: Numbers(Layers(), n) ==> Numbers(old(Layers()), n)
    {
      if active.usage < maxBytes || |active.entries| == 0 {
        return;
      }
      var rotated := RotateActive();
    }

    /** A numbered write into the active table: it becomes the first hit for its key. The table is frozen
        exactly when the write fills it. */
    method Write(k: Key, v: Text, deleted: bool) returns (r: Outcome)
      requires Valid()
      modifies this, active
      ensures Valid() && (active == old(active) || fresh(active))
      ensures r.Done? <==> ValidKey(k) && (deleted || ValidValue(v))
      ensures r.Invalid? ==> lastSequence == old(lastSequence) && Layers() == old(Layers())
      ensures r.Done? ==> lastSequence == old(lastSequence) + 1
      ensures r.Done? ==>
                var s := Upsert(old(active.entries), k, Entry(if deleted then [] else v, lastSequence, deleted));
                && active.entries == (if Footprint(s) < maxBytes then s else [])
                && immutables == (if Footprint(s) < maxBytes then [] else [Frozen(old(active.generation), s)]) + old(immutables)
      ensures r.Done? ==> forall q :: FirstHit(Layers(), q) ==
                            if q == k then Some(Entry(if deleted then [] else v, lastSequence, deleted)) else FirstHit(old(Layers()), q)
      ensures forall n: nat :: Numbers(Layers(), n) ==> Numbers(old(Layers()), n) || n == lastSequence
    {
      if !ValidKey(k) || (!deleted && !ValidValue(v)) {
        return Invalid;
      }
      ghost var was, s := Layers(), active.entries;
      var e := Entry(if deleted then [] else v, lastSequence + 1, deleted);
      NewerThanAll(was, floor, lastSequence, s, k);
      if deleted {
        r := active.AddTombstone(k, lastSequence + 1);
      } else {
        r := active.Put(k, v, lastSequence + 1);
      }
      assert r.Done? && active.entries == Upsert(s, k, e);
      lastSequence := lastSequence + 1;
      WrittenLayers(s, RecordsOf(immutables), k, e, floor, old(lastSequence));
      WrittenNumbers(s, RecordsOf(immutables), k, e);
      ghost var now := Layers();
      RotateIfRequired();
      forall q ensures FirstHit(now, q) == if q == k then Some(e) else FirstHit(was, q) {
        FirstHitSplit([s], RecordsOf(immutables), q);
        WrittenHit(s, old(RecordsOf(immutables)), k, e, q);
      }
    }

    /** Forget the frozen table of this generation, if there is one. */
    method DiscardImmutable(generation: nat) returns (found: bool, ghost at: nat)
      requires Valid()
      modifies `immutables
      ensures Valid()
      ensures found <==> exists i :: 0 <= i < |old(immutables)| && old(immutables)[i].generation == generation
      ensures !found ==> immutables == old(immutables)
      ensures found ==> at < |old(immutables)| && old(immutables)[at].generation == generation
      ensures found ==> immutables == old(immutables)[..at] + old(immutables)[at + 1..]
    {
      hide FrozenOk, Descending, Within;
      at := 0;
      var i := 0;
      while i < |immutables|
        invariant 0 <= i <= |immutables| && Valid() && immutables == old(immutables)
        invariant forall j :: 0 <= j < i ==> immutables[j].generation != generation
      {
        if immutables[i].generation == generation {
          ghost var was := Layers();
          DroppedFrozen(immutables, i, active.generation);
          DroppedLayers(was, i + 1, floor, lastSequence);
          at := i;
          immutables := immutables[..i] + immutables[i + 1..];
          assert Layers() == was[..i + 1] + was[i + 2..];
          return true, i;
        }
        i := i + 1;
      }
      found := false;
    }
  }

  lemma DroppedFrozen(fs: seq<Frozen>, i: nat, generation: nat)
    requires FrozenOk(fs, generation) && i < |fs|
    ensures FrozenOk(fs[..i] + fs[i + 1..], generation)
    ensures RecordsOf(fs[..i] + fs[i + 1..]) == RecordsOf(fs)[..i] + RecordsOf(fs)[i + 1..]
  {}

  // ----------------------------------------------------------------- layer lemmas

  lemma PushedLayers(layers: seq<seq<Record>>, low: nat, high: nat)
    requires Descending(layers) && Within(layers, low, high)
    ensures Descending([[]] + layers) && Within([[]] + layers, low, high)
  {
    var r := [[]] + layers;
    forall i, j, a: nat, b: nat | 0 <= i < j < |r| && NumberIn(r[i], a) && NumberIn(r[j], b) ensures a > b {
      assert NumberIn(layers[i - 1], a) && NumberIn(layers[j - 1], b);
    }
    forall i, a: nat | 0 <= i < |r| && NumberIn(r[i], a) ensures low < a <= high {
      assert NumberIn(layers[i - 1], a);
    }
  }

  lemma PushedNumbers(layers: seq<seq<Record>>)
    ensures forall n: nat :: Numbers([[]] + layers, n) ==> Numbers(layers, n)
  {
    var r := [[]] + layers;
    forall n: nat | Numbers(r, n) ensures Numbers(layers, n) {
      var i :| 0 <= i < |r| && NumberIn(r[i], n);
      assert NumberIn(layers[i - 1], n);
    }
  }

  lemma WrittenNumbers(s: seq<Record>, rest: seq<seq<Record>>, k: Key, e: Entry)
    ensures forall n: nat :: Numbers([Upsert(s, k, e)] + rest, n) ==> Numbers([s] + rest, n) || n == e.seqno
  {
    var r := [Upsert(s, k, e)] + rest;
    forall n: nat | Numbers(r, n) ensures Numbers([s] + rest, n) || n == e.seqno {
      var i :| 0 <= i < |r| && NumberIn(r[i], n);
      if i == 0 { UpsertNumbers(s, k, e, n); }
      if i > 0 || n != e.seqno { assert NumberIn(([s] + rest)[i], n); }
    }
  }

  lemma DroppedLayers(layers: seq<seq<Record>>, x: nat, low: nat, high: nat)
    requires Descending(layers) && Within(layers, low, high) && x < |layers|
    ensures Descending(layers[..x] + layers[x + 1..]) && Within(layers[..x] + layers[x + 1..], low, high)
  {
    var r := layers[..x] + layers[x + 1..];
    forall i | 0 <= i < |r| ensures r[i] == layers[if i < x then i else i + 1] {}
    forall i, j, a: nat, b: nat | 0 <= i < j < |r| && NumberIn(r[i], a) && NumberIn(r[j], b) ensures a > b {
      assert NumberIn(layers[if i < x then i else i + 1], a) && NumberIn(layers[if j < x then j else j + 1], b);
    }
    forall i, a: nat | 0 <= i < |r| && NumberIn(r[i], a) ensures low < a <= high {
      assert NumberIn(layers[if i < x then i else i + 1], a);
    }
  }

  lemma NewerThanAll(layers: seq<seq<Record>>, low: nat, high: nat, s: seq<Record>, k: Key)
    requires Within(layers, low, high) && |layers| > 0 && layers[0] == s
    ensures Find(s, k).Some? ==> Find(s, k).value.seqno <= high
  {
    if Find(s, k).Some? {
      FoundNumber(s, k);
      assert NumberIn(layers[0], Find(s, k).value.seqno);
    }
  }

  lemma WrittenLayers(s: seq<Record>, rest: seq<seq<Record>>, k: Key, e: Entry, low: nat, high: nat)
    requires Descending([s] + rest) && Within([s] + rest, low, high) && low <= high && e.seqno == high + 1
    ensures Descending([Upsert(s, k, e)] + rest) && Within([Upsert(s, k, e)] + rest, low, high + 1)
  {
    var was, r := [s] + rest, [Upsert(s, k, e)] + rest;
    forall i, j, a: nat, b: nat | 0 <= i < j < |r| && NumberIn(r[i], a) && NumberIn(r[j], b) ensures a > b {
      assert NumberIn(was[j], b);
      if i == 0 { UpsertNumbers(s, k, e, a); }
      if i > 0 || a != e.seqno { assert NumberIn(was[i], a); }
    }
    forall i, a: nat | 0 <= i < |r| && NumberIn(r[i], a) ensures low < a <= high + 1 {
      if i == 0 { UpsertNumbers(s, k, e, a); }
      if i > 0 || a != e.seqno { assert NumberIn(was[i], a); }
    }
  }

  lemma WrittenHit(s: seq<Record>, rest: seq<seq<Record>>, k: Key, e: Entry, q: Key)
    requires Sorted(s)
    ensures FirstHit([Upsert(s, k, e)] + rest, q) == if q == k then Some(e) else FirstHit([s] + rest, q)
  {
    UpsertFind(s, k, e, q);
    assert ([Upsert(s, k, e)] + rest)[1..] == rest && ([s] + rest)[1..] == rest;
  }
}
