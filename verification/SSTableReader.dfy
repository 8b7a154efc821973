/** The reader of src/sstable_reader.cpp: an opened file, a shared block cache and a filter. */
module SSTableReaders {
  import opened Basics
  import opened Records
  import opened SSTableFormat
  import opened SSTableFile
  import opened BlockCaches
  import Encoding
  import M = MemTables
  import Bloom

  ghost predicate DistinctOffsets(es: seq<IndexEntry>) {
    forall i, j :: 0 <= i < j < |es| ==> es[i].offset != es[j].offset
  }

  function CachedAt(latest: map<Slot, Block>, s: Slot): Option<Block> {
    if s in latest then Some(latest[s]) else None
  }

  /** Whatever the cache holds for this table is what the file holds. */
  ghost predicate CacheOk(latest: map<Slot, Block>, id: nat, file: seq<Byte>, es: seq<IndexEntry>) {
    forall i :: 0 <= i < |es| && Slot(id, es[i].offset) in latest ==> BlockAt(file, es[i]) == Some(latest[Slot(id, es[i].offset)])
  }

  lemma {:induction false} EntriesPositive(s: seq<Byte>, n: nat, previous: Key)
    requires TakeEntries(s, n, previous).Some?
    ensures forall i :: 0 <= i < |TakeEntries(s, n, previous).value.0| ==> TakeEntries(s, n, previous).value.0[i].size > 0
    decreases n
  {
    if n > 0 {
      var (e, rest) := TakeEntry(s).value;
      EntriesPositive(rest, n - 1, e.last);
    }
  }

  /** Blocks that tile a region start at different offsets. */
  lemma {:induction false} TilesDistinct(es: seq<IndexEntry>, previousEnd: nat, x: nat)
    requires Tiles(es, previousEnd, x) && forall i :: 0 <= i < |es| ==> es[i].size > 0
    ensures DistinctOffsets(es) && forall i :: 0 <= i < |es| ==> es[i].offset >= previousEnd
  {
    if |es| > 0 { TilesDistinct(es[1..], es[0].offset + es[0].size, x); }
  }

  lemma OpenedDistinct(file: seq<Byte>)
    requires Open(file).Some?
    ensures DistinctOffsets(Open(file).value.index)
  {
    hide ParseHeader, ParseFooter, Payload, TakeEntries, Tiles, DistinctOffsets;
    var f := ParseFooter(file[|file| - FOOTER_SIZE..]).value;
    var s := file[f.indexOffset..f.indexOffset + f.indexSize];
    var p := Payload(s).value;
    PayloadLength(s);
    EntriesPositive(p[PREFIX..], Encoding.FromLe(p[8..12]), []);
    TilesDistinct(Open(file).value.index, HEADER_SIZE, f.indexOffset);
  }

  lemma CacheHit(latest: map<Slot, Block>, id: nat, file: seq<Byte>, es: seq<IndexEntry>, i: nat)
    requires CacheOk(latest, id, file, es) && i < |es| && Slot(id, es[i].offset) in latest
    ensures BlockAt(file, es[i]) == Some(latest[Slot(id, es[i].offset)])
  {}

  lemma CachePut(latest: map<Slot, Block>, id: nat, file: seq<Byte>, es: seq<IndexEntry>, i: nat, b: Block)
    requires CacheOk(latest, id, file, es) && DistinctOffsets(es) && i < |es| && BlockAt(file, es[i]) == Some(b)
    ensures CacheOk(latest[Slot(id, es[i].offset) := b], id, file, es)
    ensures forall s: Slot :: s.table != id ==> CachedAt(latest[Slot(id, es[i].offset) := b], s) == CachedAt(latest, s)
  {
    hide BlockAt;
    var slot := Slot(id, es[i].offset);
    forall j | 0 <= j < |es| && Slot(id, es[j].offset) in latest[slot := b]
      ensures BlockAt(file, es[j]) == Some(latest[slot := b][Slot(id, es[j].offset)])
    {
      if j != i { assert es[if i < j then i else j].offset != es[if i < j then j else i].offset; }
    }
  }

  class SSTableReader {
    const file: seq<Byte>
    const id: nat
    const content: Opened
    const cache: BlockCache
    const filter: Bloom.BloomFilter

    ghost predicate Valid()
      reads this, cache, filter
    {
      && Open(file) == Some(content) && DistinctOffsets(content.index)
      && cache.Valid() && filter.Valid() && CacheOk(cache.latest, id, file, content.index)
    }

    constructor (file: seq<Byte>, id: nat, content: Opened, cache: BlockCache, filter: Bloom.BloomFilter)
      requires Open(file) == Some(content) && cache.Valid() && filter.Valid()
      requires CacheOk(cache.latest, id, file, content.index)
      ensures Valid() && this.file == file && this.id == id && this.content == content && this.cache == cache && this.filter == filter
    {
      OpenedDistinct(file);
      this.file, this.id, this.content, this.cache, this.filter := file, id, content, cache, filter;
    }

    /** Through the cache or from the file, the block is the one the file holds, and it is then the most
        recent one in the cache unless it is too big for it. */
    method ReadDataBlock(i: nat) returns (r: Option<Block>)
      requires Valid() && i < |content.index|
      modifies cache
      ensures Valid() && r == BlockAt(file, content.index[i])
      ensures r.Some? && Charge(r.value) <= cache.capacity ==> |cache.lru| > 0 && cache.lru[0].slot == Slot(id, content.index[i].offset)
      ensures forall s: Slot :: s.table != id ==> CachedAt(cache.latest, s) == CachedAt(old(cache.latest), s)
    {
      hide Open, BlockAt, CacheOk, DistinctOffsets, Bloom.Covers, Bloom.Holds, Linked, Faithful, Without, Fitting;
      var e := content.index[i];
      var slot := Slot(id, e.offset);
      var cached := cache.Get(slot);
      if cached.Some? {
        CacheHit(cache.latest, id, file, content.index, i);
        return cached;
      }
      r := LoadBlock(file, e);
      if r.Some? {
        CachePut(cache.latest, id, file, content.index, i, r.value);
        cache.Put(slot, r.value);
      }
    }

    /** A lookup through range check, index, filter, cache and block search. */
    method Get(k: Key) returns (r: Option<Option<Entry>>)
      requires Valid() && M.ValidKey(k)
      modifies cache
      ensures Valid() && r == Lookup(file, content, k, Bloom.Covers(filter.words, filter.hashes, k))
    {
      hide Open, BlockAt, Bloom.Covers, Bloom.Holds, Bloom.Marked, Search, CacheOk, DistinctOffsets;
      if |content.index| == 0 || Less(k, content.index[0].first) || Less(content.index[|content.index| - 1].last, k) {
        return Some(None);
      }
      var i := LowerBound(content.index, k);
      if i == |content.index| || Less(k, content.index[i].first) {
        return Some(None);
      }
      var may := filter.MayContain(k);
      if !may {
        return Some(None);
      }
      var block := ReadDataBlock(i);
      if block.None? {
        return None;
      }
      r := Some(Search(block.value, k));
    }

    method ReadEverything() returns (r: Option<seq<Record>>)
      requires Valid()
      modifies cache
      ensures Valid() && r == ReadAll(file, content)
    {
      hide Open, BlockAt;
      var out: seq<Record>, i := [], 0;
      while i < |content.index|
        invariant 0 <= i <= |content.index| && Valid()
        invariant ReadBlocks(file, content.index[..i]) == Some(out)
      {
        assert content.index[..i + 1][..i] == content.index[..i] && content.index[..i + 1][i] == content.index[i];
        var block := ReadDataBlock(i);
        if block.None? {
          Unreadable(file, content.index, i + 1);
          return None;
        }
        out := out + block.value;
        i := i + 1;
      }
      assert content.index[..i] == content.index;
      if |out| != content.count {
        return None;
      }
      r := Some(out);
    }
  }

  lemma {:induction false} Unreadable(file: seq<Byte>, es: seq<IndexEntry>, i: nat)
    requires i <= |es| && ReadBlocks(file, es[..i]) == None
    ensures ReadBlocks(file, es) == None
    decreases |es|
  {
    hide BlockAt;
    if i == |es| {
      assert es[..i] == es;
    } else {
      assert es[..|es| - 1][..i] == es[..i];
      Unreadable(file, es[..|es| - 1], i);
    }
  }

  method LoadBlock(file: seq<Byte>, e: IndexEntry) returns (r: Option<Block>)
    ensures r == BlockAt(file, e)
  {
    hide ParseBlock;
    if e.offset + e.size > |file| {
      return None;
    }
    var rs := ParseDataBlock(file[e.offset..e.offset + e.size]);
    if rs.None? || |rs.value| == 0 || rs.value[0].key != e.first || rs.value[|rs.value| - 1].key != e.last {
      return None;
    }
    r := rs;
  }

  /** build_bloom_filter: a filter that has seen every key of the list. */
  method BuildFilter(rs: seq<Record>, words: nat, hashes: nat) returns (filter: Bloom.BloomFilter)
    requires words > 0 && hashes > 0
    ensures fresh(filter) && filter.Valid() && forall i :: 0 <= i < |rs| ==> rs[i].key in filter.added
  {
    hide Bloom.Covers;
    filter := new Bloom.BloomFilter(words, hashes);
    var i := 0;
    while i < |rs|
      invariant 0 <= i <= |rs| && fresh(filter) && filter.Valid()
      invariant forall j :: 0 <= j < i ==> rs[j].key in filter.added
    {
      filter.Add(rs[i].key);
      i := i + 1;
    }
  }

  /** Write a list, open the file, and look a key up: unless the writer refuses the list, or makes a
      file of 2^64 bytes or more, the file opens and the answer is linear search of the list. */
  method WriteOpenGet(rs: seq<Record>, target: nat, generation: nat, id: nat, cache: BlockCache, words: nat, hashes: nat, k: Key)
    returns (written: Option<seq<Byte>>, r: Option<Entry>)
    requires generation < LONG && cache.Valid() && (forall s: Slot :: s in cache.latest ==> s.table != id)
    requires words > 0 && hashes > 0 && M.ValidKey(k)
    modifies cache
    ensures cache.Valid() && (written.Some? ==> Acceptable(rs, target))
    ensures Acceptable(rs, target) && |rs| < WORD ==> written.Some? && |written.value| < LONG
    ensures written.Some? && |written.value| < LONG ==> Open(written.value).Some? && r == Find(rs, k)
  {
    hide FileOf, Open, Writable, Partitioned, Acceptable, Bloom.Covers, Linked, Faithful, BlockAt;
    r := None;
    ghost var bs;
    written, bs := Write(rs, target, generation);
    if written.None? || |written.value| >= LONG {
      return;
    }
    WrittenOpens(bs, rs, target, generation);
    var content := Open(written.value);
    var filter := BuildFilter(rs, words, hashes);
    var reader := new SSTableReader(written.value, id, content.value, cache, filter);
    r := GetWritten(reader, k, bs, rs, target, generation);
  }

  /** A reader of a written file, with a filter to which every key was added, answers as linear
      search of the written list does. */
  method GetWritten(reader: SSTableReader, k: Key, ghost bs: seq<seq<Record>>, ghost rs: seq<Record>, ghost target: nat, ghost generation: nat)
    returns (r: Option<Entry>)
    requires reader.Valid() && M.ValidKey(k) && Writable(bs, rs, target, generation)
    requires reader.file == FileOf(bs, rs, target, generation)
    requires forall i :: 0 <= i < |rs| ==> rs[i].key in reader.filter.added
    modifies reader.cache
    ensures reader.Valid() && r == Find(rs, k)
  {
    hide FileOf, Open, Lookup, Bloom.Covers, Bloom.Holds, Bloom.Marked, Writable;
    ghost var may := Bloom.Covers(reader.filter.words, reader.filter.hashes, k);
    if Find(rs, k).Some? { ghost var i := FindSome(rs, k); }
    Bloom.CoveredByMarks(reader.filter.words, reader.filter.added, reader.filter.hashes, k);
    LookupIsFind(bs, rs, target, generation, k, may);
    var found := reader.Get(k);
    r := found.value;
  }
}
