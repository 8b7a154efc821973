/** The block cache of src/block_cache.cpp: a least-recently-used list with an index and a byte
    budget. */
module BlockCaches {
  import opened Basics
  import opened Records

  type Block = seq<Record>

  datatype Slot = Slot(table: nat, offset: nat)

  datatype Node = Node(slot: Slot, block: Block, charge: nat)

  const BLOCK_BYTES: nat := 24
  const RECORD_BYTES: nat := 80

  function TextBytes(b: Block): nat {
    if |b| == 0 then 0 else TextBytes(b[..|b| - 1]) + |b[|b| - 1].key| + |b[|b| - 1].entry.value|
  }

  function Charge(b: Block): nat {
    BLOCK_BYTES + |b| * RECORD_BYTES + TextBytes(b)
  }

  // ------------------------------------------------------ the abstract LRU list

  function Total(ns: seq<Node>): nat {
    if |ns| == 0 then 0 else Total(ns[..|ns| - 1]) + ns[|ns| - 1].charge
  }

  function Without(ns: seq<Node>, s: Slot): seq<Node> {
    if |ns| == 0 then []
    else if ns[0].slot == s then ns[1..]
    else [ns[0]] + Without(ns[1..], s)
  }

  /** The longest prefix that fits the room: what dropping the fewest least recent nodes leaves. */
  function Fitting(ns: seq<Node>, room: int): seq<Node> {
    if |ns| == 0 || Total(ns) <= room then ns else Fitting(ns[..|ns| - 1], room)
  }

  /** Putting a block: replace, drop what is too big, evict from the far end, push to the front. */
  function Inserted(ns: seq<Node>, n: Node, capacity: nat): seq<Node> {
    var rest := Without(ns, n.slot);
    if n.charge > capacity then rest else [n] + Fitting(rest, capacity - n.charge)
  }

  ghost predicate Distinct(ns: seq<Node>) {
    forall i, j :: 0 <= i < j < |ns| ==> ns[i].slot != ns[j].slot
  }

  lemma {:induction false} TotalSplit(a: seq<Node>, b: seq<Node>)
    ensures Total(a + b) == Total(a) + Total(b)
  {
    if |b| == 0 {
      assert a + b == a;
    } else {
      assert (a + b)[..|a + b| - 1] == a + b[..|b| - 1];
      TotalSplit(a, b[..|b| - 1]);
    }
  }

  lemma {:induction false} FittingIsPrefix(ns: seq<Node>, room: int)
    ensures Fitting(ns, room) <= ns && (Fitting(ns, room) == [] || Total(Fitting(ns, room)) <= room)
  {
    if |ns| > 0 && Total(ns) > room { FittingIsPrefix(ns[..|ns| - 1], room); }
  }

  /** No longer prefix would fit: eviction removes no more than it must. */
  lemma {:induction false} FittingIsLongest(ns: seq<Node>, room: int, k: nat)
    requires k <= |ns| && Total(ns[..k]) <= room
    ensures k <= |Fitting(ns, room)|
  {
    assert ns[..|ns|] == ns;
    if |ns| > 0 && Total(ns) > room {
      assert ns[..|ns| - 1][..k] == ns[..k];
      FittingIsLongest(ns[..|ns| - 1], room, k);
    }
  }

  /** The list without the node of slot s, if it has one. */
  ghost predicate Others(ns: seq<Node>, s: Slot, os: seq<Node>) {
    && (forall n :: n in os <==> n in ns && n.slot != s)
    && ((exists i :: 0 <= i < |ns| && ns[i].slot == s && os == ns[..i] + ns[i + 1..]) || os == ns)
  }

  /** What putting a block leaves: the block at the front and behind it, in the same order, as many of the
      others as fit beside it, the most recent ones; or all the others and not the block when the block
      alone exceeds the budget. */
  lemma InsertedExact(ns: seq<Node>, n: Node, capacity: nat) returns (os: seq<Node>)
    requires Distinct(ns)
    ensures Others(ns, n.slot, os)
    ensures var r := Inserted(ns, n, capacity);
            if n.charge > capacity then r == os
            else
              && |r| > 0 && r[0] == n && r[1..] <= os && Total(r) <= capacity
              && forall k :: 0 <= k <= |os| && n.charge + Total(os[..k]) <= capacity ==> k < |r|
  {
    hide Total;
    os := Without(ns, n.slot);
    WithoutOthers(ns, n.slot);
    if n.charge <= capacity {
      var room := capacity - n.charge;
      var kept := Fitting(os, room);
      FittingIsPrefix(os, room);
      TotalSplit([n], kept);
      TotalOne(n);
      TotalNone();
      forall k | 0 <= k <= |os| && n.charge + Total(os[..k]) <= capacity ensures k <= |kept| { FittingIsLongest(os, room, k); }
    }
  }

  lemma TotalNone()
    ensures Total([]) == 0
  {}

  lemma WithoutOthers(ns: seq<Node>, s: Slot)
    requires Distinct(ns)
    ensures Others(ns, s, Without(ns, s))
  {
    if i: nat :| i < |ns| && ns[i].slot == s {
      WithoutFacts(ns, i);
      var os := ns[..i] + ns[i + 1..];
      forall n ensures n in os <==> n in ns && n.slot != s {
        if n in ns && n.slot != s {
          var j :| 0 <= j < |ns| && ns[j] == n;
          assert os[if j < i then j else j - 1] == n;
        }
        if n in os {
          var j :| 0 <= j < |os| && os[j] == n;
          var p := if j < i then j else j + 1;
          assert os[j] == ns[p] && (p < i ==> ns[p].slot != ns[i].slot) && (i < p ==> ns[i].slot != ns[p].slot);
        }
      }
    } else {
      WithoutAbsent(ns, s);
    }
  }

  lemma {:induction false} WithoutFacts(ns: seq<Node>, i: nat)
    requires Distinct(ns) && i < |ns|
    ensures Without(ns, ns[i].slot) == ns[..i] + ns[i + 1..]
  {
    if i > 0 {
      assert ns[1..][i - 1] == ns[i] && ns[0].slot != ns[i].slot;
      WithoutFacts(ns[1..], i - 1);
      assert [ns[0]] + (ns[1..][..i - 1] + ns[1..][i..]) == ns[..i] + ns[i + 1..];
    }
  }

  lemma {:induction false} WithoutAbsent(ns: seq<Node>, s: Slot)
    requires forall i :: 0 <= i < |ns| ==> ns[i].slot != s
    ensures Without(ns, s) == ns
  {
    if |ns| > 0 { WithoutAbsent(ns[1..], s); }
  }

  /** List and index are in bijection. */
  ghost predicate Linked(ns: seq<Node>, index: map<Slot, Node>) {
    && Distinct(ns)
    && (forall n :: n in ns ==> n.slot in index && index[n.slot] == n)
    && (forall s :: s in index ==> index[s] in ns && index[s].slot == s)
  }

  /** Every node holds the block last put in its slot, and is charged for it. */
  ghost predicate Faithful(ns: seq<Node>, latest: map<Slot, Block>) {
    forall n :: n in ns ==> n.slot in latest && latest[n.slot] == n.block && n.charge == Charge(n.block)
  }

  lemma LinkedRemove(ns: seq<Node>, index: map<Slot, Node>, latest: map<Slot, Block>, i: nat)
    requires Linked(ns, index) && Faithful(ns, latest) && i < |ns|
    ensures var r := ns[..i] + ns[i + 1..];
            Linked(r, index - {ns[i].slot}) && Faithful(r, latest)
  {
    var r, index' := ns[..i] + ns[i + 1..], index - {ns[i].slot};
    hide Charge;
    forall j | 0 <= j < |r| ensures r[j] == ns[if j < i then j else j + 1] && r[j] in ns && r[j].slot != ns[i].slot {
      var p := if j < i then j else j + 1;
      assert r[j] == ns[p];
      assert p < i ==> ns[p].slot != ns[i].slot;
      assert i < p ==> ns[i].slot != ns[p].slot;
    }
    forall a, b | 0 <= a < b < |r| ensures r[a].slot != r[b].slot {
      assert ns[if a < i then a else a + 1].slot != ns[if b < i then b else b + 1].slot;
    }
    forall s | s in index' ensures index'[s] in r {
      var j :| 0 <= j < |ns| && ns[j] == index[s];
      assert r[if j < i then j else j - 1] == ns[j];
    }
  }

  lemma LinkedFront(ns: seq<Node>, index: map<Slot, Node>, latest: map<Slot, Block>, i: nat)
    requires Linked(ns, index) && Faithful(ns, latest) && i < |ns|
    ensures var m := [ns[i]] + (ns[..i] + ns[i + 1..]);
            Linked(m, index) && Faithful(m, latest) && Total(m) == Total(ns)
  {
    MovedToFront(ns, i);
  }

  lemma LinkedPush(ns: seq<Node>, index: map<Slot, Node>, latest: map<Slot, Block>, n: Node)
    requires Linked(ns, index) && Faithful(ns, latest) && n.slot !in index && n.charge == Charge(n.block)
    ensures Linked([n] + ns, index[n.slot := n]) && Faithful([n] + ns, latest[n.slot := n.block])
    ensures Faithful(ns, latest[n.slot := n.block]) && Total([n] + ns) == Total(ns) + n.charge
  {
    var r, index' := [n] + ns, index[n.slot := n];
    hide Total, Charge;
    TotalSplit([n], ns);
    TotalOne(n);
    forall i, j | 0 <= i < j < |r| ensures r[i].slot != r[j].slot {
      assert r[j] in ns;
      if i > 0 { assert ns[i - 1].slot != ns[j - 1].slot; }
    }
    forall s | s in index' ensures index'[s] in r { if s != n.slot { assert index[s] in ns; } else { assert r[0] == n; } }
  }

  lemma LinkedFind(ns: seq<Node>, index: map<Slot, Node>, s: Slot) returns (i: nat)
    requires Linked(ns, index) && s in index
    ensures i < |ns| && ns[i] == index[s] && ns[i].slot == s
  {
    i :| 0 <= i < |ns| && ns[i] == index[s];
  }

  lemma LinkedAbsent(ns: seq<Node>, index: map<Slot, Node>, s: Slot)
    requires Linked(ns, index)
    ensures s in index <==> exists i :: 0 <= i < |ns| && ns[i].slot == s
  {
    if s in index {
      var i := LinkedFind(ns, index, s);
    }
    if exists i :: 0 <= i < |ns| && ns[i].slot == s {
      var i :| 0 <= i < |ns| && ns[i].slot == s;
      assert ns[i] in ns;
    }
  }

  // ---------------------------------------------------------------------- the cache

  class BlockCache {
    const capacity: nat
    var lru: seq<Node>
    var index: map<Slot, Node>
    var bytes: nat
    var hits: nat
    var misses: nat
    var evictions: nat
    /** The block last handed to Put for each slot since the last Clear. */
    ghost var latest: map<Slot, Block>

    ghost predicate Valid()
      reads this
    {
      capacity > 0 && Linked(lru, index) && Faithful(lru, latest) && bytes == Total(lru) <= capacity
    }

    constructor (capacity: nat)
      requires capacity > 0
      ensures Valid() && lru == [] && this.capacity == capacity && latest == map[]
    {
      this.capacity := capacity;
      lru, index, bytes, hits, misses, evictions := [], map[], 0, 0, 0, 0;
      latest := map[];
    }

    /** A hit moves to the front and returns the block last put there; a miss changes nothing. */
    method Get(s: Slot) returns (r: Option<Block>)
      requires Valid()
      modifies this
      ensures Valid() && latest == old(latest)
      ensures r.Some? <==> exists i :: 0 <= i < |old(lru)| && old(lru)[i].slot == s
      ensures r.Some? ==> s in latest && r.value == latest[s] && |lru| > 0 && lru[0].slot == s
      ensures r.Some? ==> lru[1..] == Without(old(lru), s)
      ensures r.None? ==> lru == old(lru)
      ensures hits + misses == old(hits) + old(misses) + 1 && (hits > old(hits) <==> r.Some?)
    {
      hide Faithful, Linked, Total;
      LinkedAbsent(lru, index, s);
      if s !in index {
        misses := misses + 1;
        return None;
      }
      var n := index[s];
      ghost var i := LinkedFind(lru, index, s);
      LatestBlock(lru, latest, i);
      LinkedDistinct(lru, index);
      WithoutFacts(lru, i);
      LinkedFront(lru, index, latest, i);
      lru := [n] + Without(lru, s);
      hits := hits + 1;
      r := Some(n.block);
    }

    method Erase(s: Slot)
      requires Valid()
      modifies `lru, `index, `bytes
      ensures Valid() && lru == Without(old(lru), s) && s !in index
    {
      hide Faithful, Linked, Total, Without;
      LinkedAbsent(lru, index, s);
      if s in index {
        ghost var i := LinkedFind(lru, index, s);
        LinkedDistinct(lru, index);
        WithoutFacts(lru, i);
        RemovedTotal(lru, i);
        LinkedRemove(lru, index, latest, i);
        bytes := bytes - index[s].charge;
        lru := Without(lru, s);
        index := index - {s};
      } else {
        WithoutAbsent(lru, s);
      }
    }

    method EvictUntilFits(incoming: nat)
      requires Valid() && incoming <= capacity
      modifies `lru, `index, `bytes, `evictions
      ensures Valid() && lru == Fitting(old(lru), capacity - incoming) && bytes <= capacity - incoming
      ensures evictions == old(evictions) + |old(lru)| - |lru|
      ensures forall s :: s in index ==> s in old(index)
    {
      hide Faithful, Linked;
      while |lru| > 0 && bytes > capacity - incoming
        invariant Valid() && |lru| <= |old(lru)| && evictions == old(evictions) + |old(lru)| - |lru|
        invariant Fitting(old(lru), capacity - incoming) == Fitting(lru, capacity - incoming)
        invariant forall s :: s in index ==> s in old(index)
        decreases |lru|
      {
        var last := |lru| - 1;
        LinkedRemove(lru, index, latest, last);
        assert lru[..last] + lru[last + 1..] == lru[..last];
        LinkedNode(lru, index, last);
        bytes := bytes - lru[last].charge;
        index := index - {lru[last].slot};
        lru := lru[..last];
        evictions := evictions + 1;
      }
    }

    /** Put: the list becomes exactly what the abstract policy says. */
    method Put(s: Slot, b: Block)
      requires Valid()
      modifies this
      ensures Valid() && lru == Inserted(old(lru), Node(s, b, Charge(b)), capacity)
      ensures latest == old(latest)[s := b] && hits == old(hits) && misses == old(misses)
      ensures evictions + |lru| == old(evictions) + |Without(old(lru), s)| + (if Charge(b) > capacity then 0 else 1)
    {
      hide Faithful, Linked;
      var charge := Charge(b);
      Erase(s);
      var n := Node(s, b, charge);
      if charge > capacity {
        LinkedPush(lru, index, latest, n);
        latest := latest[s := b];
        return;
      }
      EvictUntilFits(charge);
      LinkedPush(lru, index, latest, n);
      latest := latest[s := b];
      lru := [n] + lru;
      index := index[s := n];
      bytes := bytes + charge;
    }

    method Clear()
      requires Valid()
      modifies this
      ensures Valid() && lru == [] && index == map[] && bytes == 0 && latest == map[]
    {
      lru, index, bytes := [], map[], 0;
      latest := map[];
    }
  }

  lemma LinkedDistinct(ns: seq<Node>, index: map<Slot, Node>)
    requires Linked(ns, index)
    ensures Distinct(ns)
  {}

  lemma LinkedNode(ns: seq<Node>, index: map<Slot, Node>, i: nat)
    requires Linked(ns, index) && i < |ns|
    ensures ns[i].slot in index
  {}

  lemma LatestBlock(ns: seq<Node>, latest: map<Slot, Block>, i: nat)
    requires Faithful(ns, latest) && i < |ns|
    ensures ns[i].slot in latest && latest[ns[i].slot] == ns[i].block
  {
    assert ns[i] in ns;
  }

  lemma RemovedTotal(ns: seq<Node>, i: nat)
    requires i < |ns|
    ensures Total(ns) == Total(ns[..i] + ns[i + 1..]) + ns[i].charge
  {
    hide Total;
    var a, b, n := ns[..i], ns[i + 1..], ns[i];
    assert ns == a + [n] + b;
    TotalSplit(a + [n], b);
    TotalSplit(a, [n]);
    TotalSplit(a, b);
    TotalOne(n);
  }

  lemma TotalOne(n: Node)
    ensures Total([n]) == n.charge
  {
    assert [n][..0] == [] && Total([]) == 0;
  }

  lemma MovedToFront(ns: seq<Node>, i: nat)
    requires i < |ns| && Distinct(ns)
    ensures var m := [ns[i]] + (ns[..i] + ns[i + 1..]);
            Distinct(m) && Total(m) == Total(ns) && (forall n :: n in m <==> n in ns)
  {
    var rest := ns[..i] + ns[i + 1..];
    hide Total;
    RemovedTotal(ns, i);
    TotalSplit([ns[i]], rest);
    TotalOne(ns[i]);
    forall n ensures n in [ns[i]] + rest <==> n in ns { assert ns == ns[..i] + [ns[i]] + ns[i + 1..]; }
  }
}
