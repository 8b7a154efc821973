/** Writing a table file and reading it back: block partition, layout, index, and lookup. */
module SSTableFile {
  import opened Basics
  import opened Records
  import opened SSTableFormat
  import Checksum
  import Directories

  // ------------------------------------------------------------- cutting into blocks

  function Flatten(bs: seq<seq<Record>>): seq<Record> {
    if |bs| == 0 then [] else Flatten(bs[..|bs| - 1]) + bs[|bs| - 1]
  }

  /** None empty, none of two or more records over the target, and each cut only where the next
      record would not have fitted. */
  ghost predicate Cut(bs: seq<seq<Record>>, target: nat) {
    && (forall i :: 0 <= i < |bs| ==> |bs[i]| > 0)
    && (forall i :: 0 <= i < |bs| && |bs[i]| >= 2 ==> BlockSize(bs[i]) <= target)
    && (forall i :: 1 <= i < |bs| ==> TightAt(bs, i, target))
  }

  /** The first record of block i would not have fitted in the block before. */
  ghost predicate TightAt(bs: seq<seq<Record>>, i: nat, target: nat)
    requires 1 <= i < |bs|
  {
    |bs[i]| > 0 && BlockSize(bs[i - 1]) + RecordSize(bs[i][0]) > target
  }

  ghost predicate Partitioned(bs: seq<seq<Record>>, rs: seq<Record>, target: nat) {
    Flatten(bs) == rs && Cut(bs, target)
  }

  /** The blocks cut so far and the one being filled. */
  ghost predicate Filling(bs: seq<seq<Record>>, current: seq<Record>, target: nat) {
    && Cut(bs, target) && (|current| >= 2 ==> BlockSize(current) <= target)
    && (|bs| > 0 && |current| > 0 ==> BlockSize(bs[|bs| - 1]) + RecordSize(current[0]) > target)
  }

  lemma CutBefore(bs: seq<seq<Record>>, current: seq<Record>, target: nat)
    requires Filling(bs, current, target) && |current| > 0
    ensures Cut(bs + [current], target)
  {
    hide BlockSize, RecordSize, TightAt;
    var cs := bs + [current];
    forall i | 0 <= i < |cs| ensures |cs[i]| > 0 && (|cs[i]| >= 2 ==> BlockSize(cs[i]) <= target) {
      assert cs[i] == if i < |bs| then bs[i] else current;
    }
    forall i | 1 <= i < |cs| ensures TightAt(cs, i, target) { TightKept(bs, current, i, target); }
  }

  lemma TightKept(bs: seq<seq<Record>>, current: seq<Record>, i: nat, target: nat)
    requires Filling(bs, current, target) && |current| > 0 && 1 <= i <= |bs|
    ensures TightAt(bs + [current], i, target)
  {
    hide BlockSize, RecordSize;
    if i < |bs| { assert TightAt(bs, i, target); }
  }

  lemma StartNext(bs: seq<seq<Record>>, current: seq<Record>, target: nat, r: Record)
    requires Cut(bs + [current], target) && BlockSize(current) + RecordSize(r) > target
    ensures Filling(bs + [current], [r], target)
  {
    hide BlockSize, RecordSize, Cut;
  }

  lemma FillOne(bs: seq<seq<Record>>, current: seq<Record>, target: nat, r: Record)
    requires Filling(bs, current, target) && (|current| == 0 ==> |bs| == 0)
    requires |current| > 0 ==> BlockSize(current) + RecordSize(r) <= target
    ensures Filling(bs, current + [r], target)
  {
    BlockSizeSnoc(current, r);
    hide BlockSize, RecordSize;
  }

  method Partition(rs: seq<Record>, target: nat) returns (bs: seq<seq<Record>>)
    ensures Partitioned(bs, rs, target) && (|rs| > 0 ==> |bs| > 0)
  {
    hide BlockSize, RecordSize, Cut, Filling;
    bs := [];
    var current: seq<Record>, size, i := [], PREFIX + 4, 0;
    NoBlock(target);
    while i < |rs|
      invariant 0 <= i <= |rs| && size == BlockSize(current) && (i > 0 ==> |current| > 0) && (|current| == 0 ==> |bs| == 0)
      invariant Flatten(bs) + current == rs[..i] && Filling(bs, current, target)
    {
      assert rs[..i + 1] == rs[..i] + [rs[i]];
      if |current| > 0 && size + RecordSize(rs[i]) > target {
        CutBefore(bs, current, target);
        StartNext(bs, current, target, rs[i]);
        FlattenSnoc(bs, current);
        bs := bs + [current];
        current, size := [], PREFIX + 4;
        BlockSizeSnoc(current, rs[i]);
        assert current + [rs[i]] == [rs[i]];
      } else {
        FillOne(bs, current, target, rs[i]);
        BlockSizeSnoc(current, rs[i]);
      }
      current := current + [rs[i]];
      size := size + RecordSize(rs[i]);
      i := i + 1;
    }
    assert rs[..i] == rs;
    if |current| > 0 {
      CutBefore(bs, current, target);
      FlattenSnoc(bs, current);
      bs := bs + [current];
    } else {
      NothingCut(target);
    }
  }

  lemma NothingCut(target: nat)
    ensures Cut([], target)
  {}

  lemma NoBlock(target: nat)
    ensures BlockSize([]) == PREFIX + 4 && Filling([], [], target)
  {}

  lemma FlattenSnoc(bs: seq<seq<Record>>, b: seq<Record>)
    ensures Flatten(bs + [b]) == Flatten(bs) + b
  {
    assert (bs + [b])[..|bs|] == bs;
  }

  lemma BlockSizeSnoc(rs: seq<Record>, r: Record)
    ensures BlockSize(rs + [r]) == BlockSize(rs) + RecordSize(r)
  {
    assert (rs + [r])[..|rs|] == rs;
  }

  lemma {:induction false} FlattenCons(bs: seq<seq<Record>>)
    requires |bs| > 0
    ensures Flatten(bs) == bs[0] + Flatten(bs[1..])
  {
    var n := |bs| - 1;
    if n == 0 {
      assert Flatten(bs[..0]) == [] && Flatten(bs[1..]) == [];
    } else {
      FlattenCons(bs[..n]);
      assert bs[..n][1..] == bs[1..][..n - 1];
    }
  }

  // ------------------------------------------------------------------ the layout

  function OffsetOf(bs: seq<seq<Record>>, i: nat): nat
    requires i <= |bs|
  {
    if i == 0 then HEADER_SIZE else OffsetOf(bs, i - 1) + BlockSize(bs[i - 1])
  }

  function EntryOf(bs: seq<seq<Record>>, i: nat): IndexEntry
    requires i < |bs| && |bs[i]| > 0
  {
    IndexEntry(bs[i][0].key, bs[i][|bs[i]| - 1].key, OffsetOf(bs, i), BlockSize(bs[i]))
  }

  function Layout(bs: seq<seq<Record>>): seq<IndexEntry>
    requires forall i :: 0 <= i < |bs| ==> |bs[i]| > 0
  {
    seq(|bs|, i requires 0 <= i < |bs| => EntryOf(bs, i))
  }

  function BlockBytes(bs: seq<seq<Record>>, i: nat): seq<Byte>
    requires i <= |bs|
  {
    if i == 0 then [] else BlockBytes(bs, i - 1) + Checked(BlockPayload(bs[i - 1]))
  }

  ghost predicate Writable(bs: seq<seq<Record>>, rs: seq<Record>, target: nat, generation: nat) {
    && (forall i :: 0 <= i < |bs| ==> BlockFits(bs[i])) && Flatten(bs) == rs && Sorted(rs)
    && 0 < |bs| < WORD && 0 < |rs| < LONG && 0 < target < WORD && generation < LONG
    && OffsetOf(bs, |bs|) + |Checked(IndexPayload(Layout(bs)))| < LONG
  }

  function HeaderOf(bs: seq<seq<Record>>, rs: seq<Record>, target: nat, generation: nat): Header
    requires |rs| > 0
  {
    Header(generation, |rs|, |bs|, target, Directories.MinSeq(rs), Directories.MaxSeq(rs))
  }

  function FooterOf(bs: seq<seq<Record>>, rs: seq<Record>): Footer
    requires |rs| > 0 && forall i :: 0 <= i < |bs| ==> |bs[i]| > 0
  {
    Footer(OffsetOf(bs, |bs|), |Checked(IndexPayload(Layout(bs)))|, |rs|, |bs|, Directories.MinSeq(rs), Directories.MaxSeq(rs))
  }

  function FileOf(bs: seq<seq<Record>>, rs: seq<Record>, target: nat, generation: nat): seq<Byte>
    requires |rs| > 0 && forall i :: 0 <= i < |bs| ==> |bs[i]| > 0
  {
    Checked(HeaderPayload(HeaderOf(bs, rs, target, generation))) + BlockBytes(bs, |bs|)
    + Checked(IndexPayload(Layout(bs))) + Checked(FooterPayload(FooterOf(bs, rs)))
  }

  lemma {:induction false} BlockBytesLength(bs: seq<seq<Record>>, i: nat)
    requires i <= |bs|
    ensures HEADER_SIZE + |BlockBytes(bs, i)| == OffsetOf(bs, i)
  {
    hide BlockSize, Checked;
    if i > 0 {
      BlockBytesLength(bs, i - 1);
      BlockSizeIs(bs[i - 1]);
    }
  }

  lemma {:induction false} BlockBytesPrefix(bs: seq<seq<Record>>, i: nat, j: nat)
    requires i <= j <= |bs|
    ensures BlockBytes(bs, i) <= BlockBytes(bs, j)
    decreases j
  {
    hide Checked;
    if i < j { BlockBytesPrefix(bs, i, j - 1); }
  }

  /** The four regions of a written file, where the footer and the index say they are. */
  lemma Regions(bs: seq<seq<Record>>, rs: seq<Record>, target: nat, generation: nat)
    requires Writable(bs, rs, target, generation)
    ensures var f := FileOf(bs, rs, target, generation);
            var x := OffsetOf(bs, |bs|);
            var n := |Checked(IndexPayload(Layout(bs)))|;
            && |f| == x + n + FOOTER_SIZE && x >= HEADER_SIZE
            && f[..HEADER_SIZE] == Checked(HeaderPayload(HeaderOf(bs, rs, target, generation)))
            && f[HEADER_SIZE..x] == BlockBytes(bs, |bs|)
            && f[x..x + n] == Checked(IndexPayload(Layout(bs)))
            && f[|f| - FOOTER_SIZE..] == Checked(FooterPayload(FooterOf(bs, rs)))
  {
    hide Checked, HeaderPayload, FooterPayload, IndexPayload, BlockBytes, OffsetOf, HeaderOf, FooterOf, Layout;
    BlockBytesLength(bs, |bs|);
    CheckedLength(HeaderPayload(HeaderOf(bs, rs, target, generation)));
    CheckedLength(FooterPayload(FooterOf(bs, rs)));
    PayloadSizes(HeaderOf(bs, rs, target, generation), FooterOf(bs, rs));
    FourParts(Checked(HeaderPayload(HeaderOf(bs, rs, target, generation))), BlockBytes(bs, |bs|),
              Checked(IndexPayload(Layout(bs))), Checked(FooterPayload(FooterOf(bs, rs))));
  }

  lemma FourParts(a: seq<Byte>, b: seq<Byte>, c: seq<Byte>, d: seq<Byte>)
    ensures var f, x := a + b + c + d, |a| + |b|;
            && |f| == x + |c| + |d| && f[..|a|] == a && f[|a|..x] == b && f[x..x + |c|] == c && f[|f| - |d|..] == d
  {}

  lemma PayloadSizes(h: Header, f: Footer)
    ensures |HeaderPayload(h)| == HEADER_SIZE - 4 && |FooterPayload(f)| == FOOTER_SIZE - 4
  {}

  /** Block i sits where its index entry says. */
  lemma BlockRegion(bs: seq<seq<Record>>, rs: seq<Record>, target: nat, generation: nat, i: nat)
    requires Writable(bs, rs, target, generation) && i < |bs|
    ensures var f, e := FileOf(bs, rs, target, generation), EntryOf(bs, i);
            && HEADER_SIZE <= e.offset && e.offset + e.size <= OffsetOf(bs, |bs|) <= |f|
            && f[e.offset..e.offset + e.size] == Checked(BlockPayload(bs[i]))
  {
    hide Checked, BlockSize, FileOf, BlockBytes, OffsetOf, BlockPayload, IndexPayload, Layout, HeaderPayload, FooterPayload, Sorted;
    Regions(bs, rs, target, generation);
    BlockInBody(bs, i, FileOf(bs, rs, target, generation), OffsetOf(bs, |bs|));
  }

  lemma BlockInBody(bs: seq<seq<Record>>, i: nat, f: seq<Byte>, x: nat)
    requires i < |bs| && HEADER_SIZE <= x == OffsetOf(bs, |bs|) <= |f| && f[HEADER_SIZE..x] == BlockBytes(bs, |bs|)
    ensures var (o, n) := (OffsetOf(bs, i), BlockSize(bs[i]));
            HEADER_SIZE <= o && o + n <= x && f[o..o + n] == Checked(BlockPayload(bs[i]))
  {
    hide Checked, BlockSize, BlockBytes, OffsetOf, BlockPayload;
    var all := BlockBytes(bs, |bs|);
    BlockBytesPrefix(bs, i + 1, |bs|);
    BlockBytesLength(bs, i);
    OneMoreBlock(bs, i);
    Inside(f, HEADER_SIZE, x, all, BlockBytes(bs, i), Checked(BlockPayload(bs[i])));
  }

  lemma OneMoreBlock(bs: seq<seq<Record>>, i: nat)
    requires i < |bs|
    ensures BlockBytes(bs, i + 1) == BlockBytes(bs, i) + Checked(BlockPayload(bs[i]))
    ensures OffsetOf(bs, i + 1) == OffsetOf(bs, i) + BlockSize(bs[i]) && BlockSize(bs[i]) == |Checked(BlockPayload(bs[i]))|
  {
    hide Checked, BlockSize;
    BlockSizeIs(bs[i]);
  }

  /** A part of a region of the file. */
  lemma Inside(f: seq<Byte>, base: nat, x: nat, all: seq<Byte>, before: seq<Byte>, part: seq<Byte>)
    requires base <= x <= |f| && f[base..x] == all && before + part <= all
    ensures base + |before| + |part| <= x && f[base + |before|..base + |before| + |part|] == part
  {
    var a, b := |before|, |before| + |part|;
    assert b == |before + part| <= |all|;
    forall i | 0 <= i < |part| ensures f[base + a + i] == part[i] {
      assert all[a + i] == (before + part)[a + i] == part[i];
      assert f[base..x][a + i] == f[base + a + i];
    }
  }

  // -------------------------------------------------------------------- opening

  datatype Opened = Opened(generation: nat, count: nat, minSeq: nat, maxSeq: nat, index: seq<IndexEntry>)

  /** Each block starts at or after the end of the one before, and the last ends at the index. */
  function Tiles(es: seq<IndexEntry>, previousEnd: nat, indexOffset: nat): bool {
    if |es| == 0 then previousEnd == indexOffset
    else
      var e := es[0];
      if e.offset < HEADER_SIZE || e.offset < previousEnd || e.offset > indexOffset || e.size > indexOffset - e.offset then false
      else Tiles(es[1..], e.offset + e.size, indexOffset)
  }

  function Open(file: seq<Byte>): Option<Opened> {
    if |file| < HEADER_SIZE + FOOTER_SIZE then None
    else
      var end := |file| - FOOTER_SIZE;
      var header, footer := ParseHeader(file[..HEADER_SIZE]), ParseFooter(file[end..]);
      if header.None? || footer.None? then None
      else OpenParts(file, header.value, footer.value)
  }

  function OpenParts(file: seq<Byte>, h: Header, f: Footer): Option<Opened>
    requires |file| >= HEADER_SIZE + FOOTER_SIZE
  {
    var end := |file| - FOOTER_SIZE;
    if f.indexOffset < HEADER_SIZE || f.indexOffset > end || f.indexSize > end - f.indexOffset then None
    else if h.count != f.count || h.blocks != f.blocks || h.minSeq != f.minSeq || h.maxSeq != f.maxSeq then None
    else
      match ParseIndex(file[f.indexOffset..f.indexOffset + f.indexSize])
      case None => None
      case Some(es) =>
        if |es| != f.blocks || !Tiles(es, HEADER_SIZE, f.indexOffset) then None
        else Some(Opened(h.generation, h.count, h.minSeq, h.maxSeq, es))
  }

  lemma {:induction false} LayoutTiles(bs: seq<seq<Record>>, i: nat)
    requires i <= |bs| && forall j :: 0 <= j < |bs| ==> |bs[j]| > 0
    ensures HEADER_SIZE <= OffsetOf(bs, i) <= OffsetOf(bs, |bs|)
    ensures Tiles(Layout(bs)[i..], OffsetOf(bs, i), OffsetOf(bs, |bs|))
    decreases |bs| - i
  {
    hide BlockSize;
    OffsetGrows(bs, 0, i);
    OffsetGrows(bs, i, |bs|);
    if i < |bs| {
      LayoutTiles(bs, i + 1);
      assert Layout(bs)[i..][1..] == Layout(bs)[i + 1..];
    }
  }

  lemma {:induction false} OffsetGrows(bs: seq<seq<Record>>, i: nat, j: nat)
    requires i <= j <= |bs|
    ensures OffsetOf(bs, i) <= OffsetOf(bs, j)
    decreases j
  {
    hide BlockSize;
    if i < j { OffsetGrows(bs, i, j - 1); }
  }

  lemma {:induction false} FlattenAt(bs: seq<seq<Record>>, i: nat, p: nat) returns (at: nat)
    requires i < |bs| && p < |bs[i]|
    ensures at < |Flatten(bs)| && Flatten(bs)[at] == bs[i][p]
    decreases |bs|
  {
    var n := |bs| - 1;
    if i == n {
      at := |Flatten(bs[..n])| + p;
    } else {
      at := FlattenAt(bs[..n], i, p);
    }
  }

  /** Keys in an earlier block are before keys in a later one. */
  lemma {:induction false} BlocksOrdered(bs: seq<seq<Record>>, i: nat, j: nat, p: nat, q: nat)
    requires Sorted(Flatten(bs)) && i < j < |bs| && p < |bs[i]| && q < |bs[j]|
    ensures Less(bs[i][p].key, bs[j][q].key)
    decreases |bs|
  {
    var n := |bs| - 1;
    var front := Flatten(bs[..n]);
    assert Flatten(bs) == front + bs[n];
    if j == n {
      var at := FlattenAt(bs[..n], i, p);
      assert Flatten(bs)[at] == bs[i][p] && Flatten(bs)[|front| + q] == bs[n][q];
    } else {
      assert Sorted(front) by {
        forall a, b | 0 <= a < b < |front| ensures Less(front[a].key, front[b].key) {
          assert Flatten(bs)[a] == front[a] && Flatten(bs)[b] == front[b];
        }
      }
      BlocksOrdered(bs[..n], i, j, p, q);
    }
  }

  lemma LayoutFits(bs: seq<seq<Record>>, rs: seq<Record>, target: nat, generation: nat)
    requires Writable(bs, rs, target, generation)
    ensures IndexFits(Layout(bs))
  {
    hide BlockSize, Checked, IndexPayload;
    var es := Layout(bs);
    forall i | 0 <= i < |es| ensures EntryFits(es[i]) {
      var b := bs[i];
      assert BlockFits(b) && RecordFits(b[0]) && RecordFits(b[|b| - 1]);
      LessIrreflexive(b[0].key);
      if |b| > 1 { LessAtMost(b[0].key, b[|b| - 1].key, b[|b| - 1].key); }
      BlockSizePositive(b);
      OffsetGrows(bs, i, |bs|);
      OffsetGrows(bs, i + 1, |bs|);
    }
    forall i | 1 <= i < |es| ensures Less(es[i - 1].last, es[i].first) {
      BlocksOrdered(bs, i - 1, i, |bs[i - 1]| - 1, 0);
    }
  }

  lemma {:induction false} BlockSizePositive(rs: seq<Record>)
    ensures BlockSize(rs) >= PREFIX + 4
  {
    if |rs| > 0 { BlockSizePositive(rs[..|rs| - 1]); }
  }

  lemma {:induction false} SequenceRange(rs: seq<Record>)
    requires |rs| > 0 && forall i :: 0 <= i < |rs| ==> 0 < rs[i].entry.seqno < LONG
    ensures 0 < Directories.MinSeq(rs) <= Directories.MaxSeq(rs) < LONG
  {
    if |rs| > 1 { SequenceRange(rs[..|rs| - 1]); }
  }

  lemma {:induction false} AllRecordsFit(bs: seq<seq<Record>>)
    requires forall i :: 0 <= i < |bs| ==> BlockFits(bs[i])
    ensures forall i :: 0 <= i < |Flatten(bs)| ==> RecordFits(Flatten(bs)[i])
  {
    if |bs| > 0 {
      AllRecordsFit(bs[..|bs| - 1]);
      assert BlockFits(bs[|bs| - 1]);
    }
  }

  /** A written file opens, with the layout it was written with. */
  lemma WrittenOpens(bs: seq<seq<Record>>, rs: seq<Record>, target: nat, generation: nat)
    requires Writable(bs, rs, target, generation)
    ensures Open(FileOf(bs, rs, target, generation)) ==
            Some(Opened(generation, |rs|, Directories.MinSeq(rs), Directories.MaxSeq(rs), Layout(bs)))
  {
    hide Checked, HeaderPayload, FooterPayload, IndexPayload, FileOf, OffsetOf, Layout, ParseHeader, ParseFooter, ParseIndex, Tiles, OpenParts;
    PartsFit(bs, rs, target, generation);
    Regions(bs, rs, target, generation);
    HeaderRoundTrip(HeaderOf(bs, rs, target, generation));
    FooterRoundTrip(FooterOf(bs, rs));
    PartsOpen(bs, rs, target, generation);
  }

  lemma PartsFit(bs: seq<seq<Record>>, rs: seq<Record>, target: nat, generation: nat)
    requires Writable(bs, rs, target, generation)
    ensures FooterFits(FooterOf(bs, rs)) && HeaderFits(HeaderOf(bs, rs, target, generation)) && IndexFits(Layout(bs))
  {
    hide Checked, IndexPayload, OffsetOf, Layout;
    AllRecordsFit(bs);
    SequenceRange(rs);
    LayoutFits(bs, rs, target, generation);
    CheckedLength(IndexPayload(Layout(bs)));
  }

  lemma PartsOpen(bs: seq<seq<Record>>, rs: seq<Record>, target: nat, generation: nat)
    requires Writable(bs, rs, target, generation) && IndexFits(Layout(bs))
    requires |FileOf(bs, rs, target, generation)| >= HEADER_SIZE + FOOTER_SIZE
    ensures OpenParts(FileOf(bs, rs, target, generation), HeaderOf(bs, rs, target, generation), FooterOf(bs, rs)) ==
            Some(Opened(generation, |rs|, Directories.MinSeq(rs), Directories.MaxSeq(rs), Layout(bs)))
  {
    hide Checked, IndexPayload, FileOf, OffsetOf, Layout, ParseIndex, Tiles;
    Regions(bs, rs, target, generation);
    IndexRoundTrip(Layout(bs));
    LayoutTiles(bs, 0);
    FirstOffset(bs);
    assert Layout(bs)[0..] == Layout(bs);
  }

  lemma FirstOffset(bs: seq<seq<Record>>)
    requires forall i :: 0 <= i < |bs| ==> |bs[i]| > 0
    ensures OffsetOf(bs, 0) == HEADER_SIZE && |Layout(bs)| == |bs|
  {}

  // -------------------------------------------------------------------- reading

  /** Read the block an index entry names; refused unless its key range is the one indexed. */
  function BlockAt(file: seq<Byte>, e: IndexEntry): Option<seq<Record>> {
    if e.offset + e.size > |file| then None
    else
      match ParseBlock(file[e.offset..e.offset + e.size])
      case None => None
      case Some(rs) => if |rs| == 0 || rs[0].key != e.first || rs[|rs| - 1].key != e.last then None else Some(rs)
  }

  lemma WrittenBlock(bs: seq<seq<Record>>, rs: seq<Record>, target: nat, generation: nat, i: nat)
    requires Writable(bs, rs, target, generation) && i < |bs|
    ensures BlockAt(FileOf(bs, rs, target, generation), Layout(bs)[i]) == Some(bs[i])
  {
    hide Checked, FileOf, BlockPayload, OffsetOf, BlockSize, ParseBlock;
    BlockRegion(bs, rs, target, generation, i);
    BlockRoundTrip(bs[i]);
  }

  function ReadBlocks(file: seq<Byte>, es: seq<IndexEntry>): Option<seq<Record>> {
    if |es| == 0 then Some([])
    else
      var front, b := ReadBlocks(file, es[..|es| - 1]), BlockAt(file, es[|es| - 1]);
      if front.None? || b.None? then None else Some(front.value + b.value)
  }

  function ReadAll(file: seq<Byte>, o: Opened): Option<seq<Record>> {
    var r := ReadBlocks(file, o.index);
    if r.Some? && |r.value| == o.count then r else None
  }

  lemma {:induction false} ReadBlocksWritten(bs: seq<seq<Record>>, rs: seq<Record>, target: nat, generation: nat, i: nat)
    requires Writable(bs, rs, target, generation) && i <= |bs|
    ensures ReadBlocks(FileOf(bs, rs, target, generation), Layout(bs)[..i]) == Some(Flatten(bs[..i]))
  {
    hide FileOf, BlockAt, EntryOf;
    if i > 0 {
      ReadBlocksWritten(bs, rs, target, generation, i - 1);
      WrittenBlock(bs, rs, target, generation, i - 1);
      assert Layout(bs)[..i][..i - 1] == Layout(bs)[..i - 1] && bs[..i][..i - 1] == bs[..i - 1];
      assert Layout(bs)[..i][i - 1] == Layout(bs)[i - 1];
    }
  }

  /** Writing a list and reading everything back gives the list. */
  lemma ReadAllWritten(bs: seq<seq<Record>>, rs: seq<Record>, target: nat, generation: nat)
    requires Writable(bs, rs, target, generation)
    ensures var f := FileOf(bs, rs, target, generation);
            Open(f).Some? && ReadAll(f, Open(f).value) == Some(rs)
  {
    hide FileOf, Open, ReadBlocks, EntryOf;
    WrittenOpens(bs, rs, target, generation);
    ReadBlocksWritten(bs, rs, target, generation, |bs|);
    assert Layout(bs)[..|bs|] == Layout(bs) && bs[..|bs|] == bs;
  }

  // --------------------------------------------------------------------- lookup

  /** std::lower_bound on the last keys: the first entry not wholly before the key. */
  function LowerBound(es: seq<IndexEntry>, k: Key): (i: nat)
    ensures i <= |es|
  {
    if |es| > 0 && Less(es[0].last, k) then 1 + LowerBound(es[1..], k) else 0
  }

  function LowerBoundIn(rs: seq<Record>, k: Key): (i: nat)
    ensures i <= |rs|
  {
    if |rs| > 0 && Less(rs[0].key, k) then 1 + LowerBoundIn(rs[1..], k) else 0
  }

  function Search(rs: seq<Record>, k: Key): Option<Entry> {
    var i := LowerBoundIn(rs, k);
    if i == |rs| || rs[i].key != k then None else Some(rs[i].entry)
  }

  /** Searching a sorted block finds what scanning it finds. */
  lemma {:induction false} SearchIsFind(rs: seq<Record>, k: Key)
    requires Sorted(rs)
    ensures Search(rs, k) == Find(rs, k)
  {
    if |rs| > 0 {
      if Less(rs[0].key, k) {
        LessIrreflexive(k);
        SearchIsFind(rs[1..], k);
      } else if rs[0].key != k {
        LessTotal(rs[0].key, k);
        LessIrreflexive(k);
        forall i | 0 <= i < |rs| ensures rs[i].key != k { if i > 0 { LessTransitive(k, rs[0].key, rs[i].key); } }
        FindAbsent(rs, k);
      }
    }
  }

  /** The indexed lookup: range check, index search, filter, block search. A block that cannot be
      read leaves the source by an exception (None outside). */
  function Lookup(file: seq<Byte>, o: Opened, k: Key, mayContain: bool): Option<Option<Entry>> {
    if |o.index| == 0 || Less(k, o.index[0].first) || Less(o.index[|o.index| - 1].last, k) then Some(None)
    else
      var i := LowerBound(o.index, k);
      if i == |o.index| || Less(k, o.index[i].first) then Some(None)
      else if !mayContain then Some(None)
      else
        match BlockAt(file, o.index[i])
        case None => None
        case Some(rs) => Some(Search(rs, k))
  }

  /** The indexed block is the only place the key can be. */
  lemma {:induction false} IndexedFind(bs: seq<seq<Record>>, es: seq<IndexEntry>, k: Key)
    requires |es| == |bs| && Sorted(Flatten(bs)) && forall i :: 0 <= i < |bs| ==> |bs[i]| > 0
    requires forall i :: 0 <= i < |bs| ==> es[i].first == bs[i][0].key && es[i].last == bs[i][|bs[i]| - 1].key
    ensures var i := LowerBound(es, k);
            Find(Flatten(bs), k) == if i == |es| || Less(k, es[i].first) then None else Find(bs[i], k)
    decreases |bs|
  {
    if |bs| > 0 {
      FlattenCons(bs);
      var b, rest := bs[0], Flatten(bs[1..]);
      SortedHalves(b, rest);
      FindSplit(b, rest, k);
      if Less(es[0].last, k) {
        AbsentAfter(b, k);
        IndexedFind(bs[1..], es[1..], k);
      } else {
        AbsentBelow(b, rest, k);
      }
    }
  }

  lemma SortedHalves(a: seq<Record>, b: seq<Record>)
    requires Sorted(a + b)
    ensures Sorted(a) && Sorted(b) && forall i, j :: 0 <= i < |a| && 0 <= j < |b| ==> Less(a[i].key, b[j].key)
  {
    forall i, j | 0 <= i < j < |a| ensures Less(a[i].key, a[j].key) { assert (a + b)[i] == a[i] && (a + b)[j] == a[j]; }
    forall i, j | 0 <= i < j < |b| ensures Less(b[i].key, b[j].key) { assert (a + b)[|a| + i] == b[i] && (a + b)[|a| + j] == b[j]; }
    forall i, j | 0 <= i < |a| && 0 <= j < |b| ensures Less(a[i].key, b[j].key) { assert (a + b)[i] == a[i] && (a + b)[|a| + j] == b[j]; }
  }

  lemma AbsentAfter(b: seq<Record>, k: Key)
    requires Sorted(b) && |b| > 0 && Less(b[|b| - 1].key, k)
    ensures Find(b, k) == None
  {
    LessIrreflexive(k);
    forall i | 0 <= i < |b| ensures b[i].key != k { if i < |b| - 1 { LessTransitive(b[i].key, b[|b| - 1].key, k); } }
    FindAbsent(b, k);
  }

  lemma AbsentBelow(b: seq<Record>, rest: seq<Record>, k: Key)
    requires Sorted(b) && |b| > 0 && AtMost(k, b[|b| - 1].key)
    requires forall i, j :: 0 <= i < |b| && 0 <= j < |rest| ==> Less(b[i].key, rest[j].key)
    ensures Find(rest, k) == None && (Less(k, b[0].key) ==> Find(b, k) == None)
  {
    LessIrreflexive(k);
    forall j | 0 <= j < |rest| ensures rest[j].key != k { LessAtMost(k, b[|b| - 1].key, rest[j].key); }
    FindAbsent(rest, k);
    if Less(k, b[0].key) {
      forall i | 0 <= i < |b| ensures b[i].key != k { if i > 0 { LessTransitive(k, b[0].key, b[i].key); } }
      FindAbsent(b, k);
    }
  }

  lemma RangeExcludes(bs: seq<seq<Record>>, k: Key)
    requires |bs| > 0 && Sorted(Flatten(bs)) && forall i :: 0 <= i < |bs| ==> |bs[i]| > 0
    requires var b := bs[|bs| - 1]; Less(k, bs[0][0].key) || Less(b[|b| - 1].key, k)
    ensures Find(Flatten(bs), k) == None
  {
    var all, b := Flatten(bs), bs[|bs| - 1];
    FlattenCons(bs);
    assert all[0] == bs[0][0];
    assert all[|all| - 1] == b[|b| - 1];
    if Less(k, all[0].key) {
      forall i | 0 <= i < |all| ensures all[i].key != k {
        LessIrreflexive(k);
        if i > 0 { LessTransitive(k, all[0].key, all[i].key); }
      }
      FindAbsent(all, k);
    } else {
      AbsentAfter(all, k);
    }
  }

  /** Lookup through range check, index, filter and block search is linear search of the list, for
      any filter that admits the keys of the list. */
  lemma LookupIsFind(bs: seq<seq<Record>>, rs: seq<Record>, target: nat, generation: nat, k: Key, mayContain: bool)
    requires Writable(bs, rs, target, generation) && (Find(rs, k).Some? ==> mayContain)
    ensures var f := FileOf(bs, rs, target, generation);
            Open(f).Some? && Lookup(f, Open(f).value, k, mayContain) == Some(Find(rs, k))
  {
    hide FileOf, Open, BlockAt, Search, OffsetOf, BlockSize, Checked, IndexPayload;
    WrittenOpens(bs, rs, target, generation);
    var es := Layout(bs);
    IndexedFind(bs, es, k);
    if Less(k, es[0].first) || Less(es[|es| - 1].last, k) { RangeExcludes(bs, k); }
    var i := LowerBound(es, k);
    if i < |es| {
      WrittenBlock(bs, rs, target, generation, i);
      assert BlockFits(bs[i]);
      SearchIsFind(bs[i], k);
    }
  }

  // -------------------------------------------------------------- altered files

  lemma SliceAltered(s: seq<Byte>, t: seq<Byte>, i: nat, a: nat, b: nat)
    requires Checksum.OneByteApart(s, t, i) && a <= b <= |s|
    ensures a <= i < b ==> Checksum.OneByteApart(s[a..b], t[a..b], i - a)
    ensures !(a <= i < b) ==> s[a..b] == t[a..b]
  {
    forall p | 0 <= p < |s| && p != i ensures t[p] == s[p] {
      if p < i { assert t[..i][p] == s[..i][p]; } else { assert t[i + 1..][p - i - 1] == s[i + 1..][p - i - 1]; }
    }
  }

  lemma {:induction false} UnreadableBlock(file: seq<Byte>, es: seq<IndexEntry>, j: nat)
    requires j < |es| && BlockAt(file, es[j]) == None
    ensures ReadBlocks(file, es) == None
    decreases |es|
  {
    hide BlockAt;
    if j < |es| - 1 { UnreadableBlock(file, es[..|es| - 1], j); }
  }

  /** The block that a byte of the body belongs to. */
  lemma {:induction false} BlockOfByte(bs: seq<seq<Record>>, n: nat, i: nat) returns (j: nat)
    requires n <= |bs| && HEADER_SIZE <= i < OffsetOf(bs, n)
    ensures j < n && OffsetOf(bs, j) <= i < OffsetOf(bs, j) + BlockSize(bs[j])
    decreases n
  {
    hide BlockSize;
    if i >= OffsetOf(bs, n - 1) { j := n - 1; } else { j := BlockOfByte(bs, n - 1, i); }
  }

  lemma AlteredParts(p: seq<Byte>, t: seq<Byte>, i: nat)
    requires Checksum.OneByteApart(Checked(p), t, i)
    ensures ParseHeader(t) == None && ParseFooter(t) == None && ParseIndex(t) == None && ParseBlock(t) == None
  {
    hide Checked, Payload;
    AlteredChecked(p, t, i);
  }

  /** What a start reads of a written file before any block. */
  lemma WrittenEnds(bs: seq<seq<Record>>, rs: seq<Record>, target: nat, generation: nat)
    requires Writable(bs, rs, target, generation)
    ensures var f := FileOf(bs, rs, target, generation);
            && |f| >= HEADER_SIZE + FOOTER_SIZE && OffsetOf(bs, |bs|) + |Checked(IndexPayload(Layout(bs)))| <= |f|
            && ParseFooter(f[|f| - FOOTER_SIZE..]) == Some(FooterOf(bs, rs))
  {
    hide Checked, HeaderPayload, FooterPayload, IndexPayload, FileOf, OffsetOf, Layout, ParseFooter;
    PartsFit(bs, rs, target, generation);
    Regions(bs, rs, target, generation);
    FooterRoundTrip(FooterOf(bs, rs));
  }

  /** A byte altered in a block leaves the file opening as it did. */
  lemma OpensAlike(f: seq<Byte>, t: seq<Byte>, i: nat, footer: Footer)
    requires Checksum.OneByteApart(f, t, i) && |f| >= HEADER_SIZE + FOOTER_SIZE
    requires ParseFooter(f[|f| - FOOTER_SIZE..]) == Some(footer) && footer.indexOffset + footer.indexSize <= |f|
    requires HEADER_SIZE <= i < |f| - FOOTER_SIZE && !(footer.indexOffset <= i < footer.indexOffset + footer.indexSize)
    ensures Open(t) == Open(f)
  {
    hide ParseHeader, ParseFooter, ParseIndex, Tiles;
    SliceAltered(f, t, i, 0, HEADER_SIZE);
    SliceAltered(f, t, i, |f| - FOOTER_SIZE, |f|);
    assert f[0..HEADER_SIZE] == f[..HEADER_SIZE] && t[0..HEADER_SIZE] == t[..HEADER_SIZE];
    assert f[|f| - FOOTER_SIZE..|f|] == f[|f| - FOOTER_SIZE..] && t[|f| - FOOTER_SIZE..|f|] == t[|f| - FOOTER_SIZE..];
    SliceAltered(f, t, i, footer.indexOffset, footer.indexOffset + footer.indexSize);
  }

  lemma HeaderAltered(f: seq<Byte>, t: seq<Byte>, i: nat, p: seq<Byte>)
    requires Checksum.OneByteApart(f, t, i) && i < HEADER_SIZE <= |f| && f[..HEADER_SIZE] == Checked(p)
    ensures Open(t) == None
  {
    hide Checked, ParseHeader, ParseFooter, ParseIndex, ParseBlock, OpenParts;
    SliceAltered(f, t, i, 0, HEADER_SIZE);
    assert f[0..HEADER_SIZE] == f[..HEADER_SIZE] && t[0..HEADER_SIZE] == t[..HEADER_SIZE];
    AlteredParts(p, t[..HEADER_SIZE], i);
  }

  lemma FooterAltered(f: seq<Byte>, t: seq<Byte>, i: nat, p: seq<Byte>)
    requires Checksum.OneByteApart(f, t, i) && FOOTER_SIZE <= |f| && |f| - FOOTER_SIZE <= i && f[|f| - FOOTER_SIZE..] == Checked(p)
    ensures Open(t) == None
  {
    hide Checked, ParseHeader, ParseFooter, ParseIndex, ParseBlock, OpenParts;
    var end := |f| - FOOTER_SIZE;
    SliceAltered(f, t, i, end, |f|);
    assert f[end..|f|] == f[end..] && t[end..|f|] == t[end..];
    AlteredParts(p, t[end..], i - end);
  }

  lemma IndexAltered(f: seq<Byte>, t: seq<Byte>, i: nat, p: seq<Byte>, footer: Footer)
    requires Checksum.OneByteApart(f, t, i) && |f| >= HEADER_SIZE + FOOTER_SIZE && i < |f| - FOOTER_SIZE
    requires ParseFooter(f[|f| - FOOTER_SIZE..]) == Some(footer) && footer.indexOffset <= i < footer.indexOffset + footer.indexSize <= |f|
    requires f[footer.indexOffset..footer.indexOffset + footer.indexSize] == Checked(p)
    ensures Open(t) == None
  {
    hide Checked, ParseHeader, ParseFooter, ParseIndex, ParseBlock, Tiles;
    var end, x, y := |f| - FOOTER_SIZE, footer.indexOffset, footer.indexOffset + footer.indexSize;
    SliceAltered(f, t, i, end, |f|);
    assert f[end..|f|] == f[end..] && t[end..|f|] == t[end..];
    SliceAltered(f, t, i, x, y);
    AlteredParts(p, t[x..y], i - x);
  }

  lemma BlockAltered(f: seq<Byte>, t: seq<Byte>, i: nat, p: seq<Byte>, es: seq<IndexEntry>, j: nat)
    requires Checksum.OneByteApart(f, t, i) && j < |es| && es[j].offset <= i < es[j].offset + es[j].size <= |f|
    requires f[es[j].offset..es[j].offset + es[j].size] == Checked(p)
    ensures ReadBlocks(t, es) == None
  {
    hide Checked, ParseHeader, ParseFooter, ParseIndex, ParseBlock, ReadBlocks;
    var x, y := es[j].offset, es[j].offset + es[j].size;
    SliceAltered(f, t, i, x, y);
    AlteredParts(p, t[x..y], i - x);
    UnreadableBlock(t, es, j);
  }

  /** A table file with any one byte altered does not open, or cannot be read through. */
  lemma AlteredTable(bs: seq<seq<Record>>, rs: seq<Record>, target: nat, generation: nat, t: seq<Byte>, i: nat)
    requires Writable(bs, rs, target, generation) && Checksum.OneByteApart(FileOf(bs, rs, target, generation), t, i)
    ensures Open(t).None? || ReadAll(t, Open(t).value).None?
  {
    hide Checked, FileOf, Open, OffsetOf, BlockSize, ReadBlocks, HeaderPayload, FooterPayload, IndexPayload, BlockPayload, ParseFooter;
    hide Sorted, BlockFits, Checksum.OneByteApart;
    WritableShape(bs, rs, target, generation);
    var f, x, footer := FileOf(bs, rs, target, generation), OffsetOf(bs, |bs|), FooterOf(bs, rs);
    ApartBounds(f, t, i);
    Regions(bs, rs, target, generation);
    WrittenEnds(bs, rs, target, generation);
    if i < HEADER_SIZE {
      HeaderAltered(f, t, i, HeaderPayload(HeaderOf(bs, rs, target, generation)));
    } else if i < x {
      OpensAlike(f, t, i, footer);
      WrittenOpens(bs, rs, target, generation);
      var j := BlockOfByte(bs, |bs|, i);
      BlockRegion(bs, rs, target, generation, j);
      BlockAltered(f, t, i, BlockPayload(bs[j]), Layout(bs), j);
    } else if i < |f| - FOOTER_SIZE {
      IndexAltered(f, t, i, IndexPayload(Layout(bs)), footer);
    } else {
      FooterAltered(f, t, i, FooterPayload(footer));
    }
  }

  lemma WritableShape(bs: seq<seq<Record>>, rs: seq<Record>, target: nat, generation: nat)
    requires Writable(bs, rs, target, generation)
    ensures |rs| > 0 && forall i :: 0 <= i < |bs| ==> |bs[i]| > 0
  {}

  lemma ApartBounds(s: seq<Byte>, t: seq<Byte>, i: nat)
    requires Checksum.OneByteApart(s, t, i)
    ensures i < |s| == |t|
  {}

  // ------------------------------------------------------------------ the writer

  /** What the writer asks of a list and of the block size. */
  ghost predicate Acceptable(rs: seq<Record>, target: nat) {
    0 < target < WORD && |rs| > 0 && Sorted(rs) && forall i :: 0 <= i < |rs| ==> RecordFits(rs[i])
  }

  /** Write a table: refused exactly when the list is empty, out of order, unnumbered, or holds a
      record a block refuses, or when there are 2^32 blocks or more. A file under 2^64 bytes is one that
      opens and reads back, and every list of fewer than 2^32 records makes such a file. */
  method Write(rs: seq<Record>, target: nat, generation: nat) returns (r: Option<seq<Byte>>, ghost bs: seq<seq<Record>>)
    requires generation < LONG
    ensures r.Some? ==> Acceptable(rs, target) && Partitioned(bs, rs, target) && |bs| < WORD
    ensures r.Some? ==> r.value == FileOf(bs, rs, target, generation)
    ensures r.Some? && |r.value| < LONG ==> Writable(bs, rs, target, generation)
    ensures r.Some? && |rs| < WORD ==> |r.value| < LONG
    ensures r.None? && Acceptable(rs, target) ==> Partitioned(bs, rs, target) && |bs| >= WORD && |rs| >= WORD
  {
    hide BlockSize, Checked, HeaderPayload, FooterPayload, IndexPayload, Layout, OffsetOf, RecordFits, Cut, Writable;
    bs := [];
    if |rs| == 0 || target == 0 || target >= WORD {
      return None, [];
    }
    var ok, low, high := CheckEntries(rs);
    if !ok {
      return None, [];
    }
    var blocks := Partition(rs, target);
    bs := blocks;
    BlockCounts(blocks, target);
    if |blocks| >= WORD {
      BlocksAtMost(blocks);
      return None, bs;
    }
    var body := WriteBlocks(blocks);
    if body.None? {
      SomeBlockUnfit(blocks, rs);
      return None, bs;
    }
    AllFit(blocks, rs);
    var header := Checked(HeaderPayload(Header(generation, |rs|, |blocks|, target, low, high)));
    var index := Checked(IndexPayload(Layout(blocks)));
    BlockBytesLength(blocks, |blocks|);
    var footer := Checked(FooterPayload(Footer(HEADER_SIZE + |body.value|, |index|, |rs|, |blocks|, low, high)));
    r := Some(header + body.value + index + footer);
    if |r.value| < LONG { FileIsWritable(blocks, rs, target, generation); }
    if |rs| < WORD { FileBound(blocks, rs, target, generation); }
  }

  // ------------------------------------------------------------------- sizes

  const MAX_RECORD: nat := 1049620
  const MAX_ENTRY: nat := 2072

  lemma {:induction false} BlockSizeBounds(rs: seq<Record>)
    ensures |rs| <= BlockSize(rs)
    ensures (forall i :: 0 <= i < |rs| ==> RecordFits(rs[i])) ==> BlockSize(rs) <= PREFIX + 4 + MAX_RECORD * |rs|
  {
    if |rs| > 0 { BlockSizeBounds(rs[..|rs| - 1]); }
  }

  /** A block of two or more records is within the target, and no record takes less than a byte. */
  lemma BlockCounts(bs: seq<seq<Record>>, target: nat)
    requires Cut(bs, target) && target < WORD
    ensures forall i :: 0 <= i < |bs| ==> 0 < |bs[i]| < WORD
  {
    hide BlockSize, TightAt;
    forall i | 0 <= i < |bs| ensures 0 < |bs[i]| < WORD { BlockSizeBounds(bs[i]); }
  }

  lemma {:induction false} BlocksAtMost(bs: seq<seq<Record>>)
    requires forall i :: 0 <= i < |bs| ==> |bs[i]| > 0
    ensures |bs| <= |Flatten(bs)|
  {
    if |bs| > 0 { BlocksAtMost(bs[..|bs| - 1]); }
  }

  lemma {:induction false} OffsetBounds(bs: seq<seq<Record>>)
    ensures |Flatten(bs)| <= OffsetOf(bs, |bs|)
    ensures (forall i :: 0 <= i < |bs| ==> BlockFits(bs[i])) ==>
              OffsetOf(bs, |bs|) <= HEADER_SIZE + 16 * |bs| + MAX_RECORD * |Flatten(bs)|
  {
    hide BlockSize, RecordFits;
    if |bs| > 0 {
      var n := |bs| - 1;
      OffsetBounds(bs[..n]);
      OffsetPrefix(bs, n, n);
      BlockSizeBounds(bs[n]);
    }
  }

  lemma {:induction false} OffsetPrefix(bs: seq<seq<Record>>, n: nat, i: nat)
    requires i <= n <= |bs|
    ensures OffsetOf(bs[..n], i) == OffsetOf(bs, i)
  {
    hide BlockSize;
    if i > 0 { OffsetPrefix(bs, n, i - 1); }
  }

  lemma {:induction false} EntriesBound(es: seq<IndexEntry>)
    requires forall i :: 0 <= i < |es| ==> |es[i].first| <= 1024 && |es[i].last| <= 1024
    ensures |EncodeEntries(es)| <= MAX_ENTRY * |es|
  {
    hide EntryFixed;
    if |es| > 0 { EntriesBound(es[1..]); }
  }

  lemma FileLength(bs: seq<seq<Record>>, rs: seq<Record>, target: nat, generation: nat)
    requires |rs| > 0 && forall i :: 0 <= i < |bs| ==> |bs[i]| > 0
    ensures |FileOf(bs, rs, target, generation)| == OffsetOf(bs, |bs|) + |Checked(IndexPayload(Layout(bs)))| + FOOTER_SIZE
  {
    hide Checked, HeaderPayload, FooterPayload, IndexPayload, BlockBytes, OffsetOf, Layout;
    BlockBytesLength(bs, |bs|);
    CheckedLength(HeaderPayload(HeaderOf(bs, rs, target, generation)));
    CheckedLength(FooterPayload(FooterOf(bs, rs)));
    PayloadSizes(HeaderOf(bs, rs, target, generation), FooterOf(bs, rs));
  }

  lemma FileIsWritable(bs: seq<seq<Record>>, rs: seq<Record>, target: nat, generation: nat)
    requires Flatten(bs) == rs && Sorted(rs) && |rs| > 0 && 0 < target < WORD && generation < LONG && 0 < |bs| < WORD
    requires forall i :: 0 <= i < |bs| ==> |bs[i]| > 0 && BlockFits(bs[i])
    requires |FileOf(bs, rs, target, generation)| < LONG
    ensures Writable(bs, rs, target, generation)
  {
    hide FileOf, OffsetOf, Checked, IndexPayload, Layout, Sorted;
    FileLength(bs, rs, target, generation);
    OffsetBounds(bs);
  }

  lemma FileBound(bs: seq<seq<Record>>, rs: seq<Record>, target: nat, generation: nat)
    requires Flatten(bs) == rs && 0 < |rs| < WORD && forall i :: 0 <= i < |bs| ==> |bs[i]| > 0 && BlockFits(bs[i])
    ensures |FileOf(bs, rs, target, generation)| < LONG
  {
    hide FileOf, OffsetOf, Checked, EncodeEntries, Flatten;
    FileLength(bs, rs, target, generation);
    OffsetBounds(bs);
    BlocksAtMost(bs);
    KeysBound(bs);
    EntriesBound(Layout(bs));
    CheckedLength(IndexPayload(Layout(bs)));
  }

  lemma KeysBound(bs: seq<seq<Record>>)
    requires forall i :: 0 <= i < |bs| ==> |bs[i]| > 0 && BlockFits(bs[i])
    ensures forall i :: 0 <= i < |bs| ==> |Layout(bs)[i].first| <= 1024 && |Layout(bs)[i].last| <= 1024
  {
    hide OffsetOf, BlockSize;
    forall i | 0 <= i < |bs| ensures |Layout(bs)[i].first| <= 1024 && |Layout(bs)[i].last| <= 1024 {
      assert BlockFits(bs[i]);
      assert RecordFits(bs[i][0]) && RecordFits(bs[i][|bs[i]| - 1]);
    }
  }

  /** The first loop of the writer: order, numbers, and the range of sequence numbers. */
  method CheckEntries(rs: seq<Record>) returns (ok: bool, low: nat, high: nat)
    requires |rs| > 0
    ensures !ok ==> !Sorted(rs) || exists i :: 0 <= i < |rs| && !RecordFits(rs[i])
    ensures ok ==> (forall i :: 0 <= i < |rs| ==> rs[i].entry.seqno > 0)
    ensures ok && (forall i :: 0 <= i < |rs| ==> |rs[i].key| > 0) ==> Sorted(rs)
    ensures ok ==> low == Directories.MinSeq(rs) && high == Directories.MaxSeq(rs)
  {
    hide RecordFits, Less, Directories.MinSeq, Directories.MaxSeq;
    low, high := 0, 0;
    var previous: Key, i := [], 0;
    NoSequences(rs);
    while i < |rs|
      invariant 0 <= i <= |rs| && previous == if i == 0 then [] else rs[i - 1].key
      invariant forall j :: 0 <= j < i ==> rs[j].entry.seqno > 0
      invariant (forall j :: 0 <= j < i ==> |rs[j].key| > 0) ==> Sorted(rs[..i])
      invariant i > 0 ==> low == Directories.MinSeq(rs[..i])
      invariant high == Directories.MaxSeq(rs[..i])
    {
      if |previous| > 0 && AtMost(rs[i].key, previous) {
        NotSorted(rs, i);
        return false, low, high;
      }
      if rs[i].entry.seqno == 0 {
        Unnumbered(rs[i]);
        return false, low, high;
      }
      if forall j :: 0 <= j < i ==> |rs[j].key| > 0 { SortedMore(rs, i); }
      MoreSequences(rs, i);
      low := if i == 0 || rs[i].entry.seqno < low then rs[i].entry.seqno else low;
      high := if rs[i].entry.seqno > high then rs[i].entry.seqno else high;
      previous := rs[i].key;
      i := i + 1;
    }
    assert rs[..i] == rs;
    ok := true;
  }

  lemma NoSequences(rs: seq<Record>)
    ensures Directories.MaxSeq(rs[..0]) == 0
  {}

  lemma Unnumbered(r: Record)
    requires r.entry.seqno == 0
    ensures !RecordFits(r)
  {}

  lemma MoreSequences(rs: seq<Record>, i: nat)
    requires i < |rs|
    ensures var n := rs[i].entry.seqno;
            && Directories.MaxSeq(rs[..i + 1]) == (if n > Directories.MaxSeq(rs[..i]) then n else Directories.MaxSeq(rs[..i]))
            && Directories.MinSeq(rs[..i + 1]) == (if i == 0 || n < Directories.MinSeq(rs[..i]) then n else Directories.MinSeq(rs[..i]))
  {
    assert rs[..i + 1][..i] == rs[..i];
  }

  method WriteBlocks(bs: seq<seq<Record>>) returns (r: Option<seq<Byte>>)
    ensures r.Some? <==> forall i :: 0 <= i < |bs| ==> BlockFits(bs[i])
    ensures r.Some? ==> r.value == BlockBytes(bs, |bs|)
  {
    hide BlockFits, Checked, BlockPayload;
    var out: seq<Byte>, i := [], 0;
    while i < |bs|
      invariant 0 <= i <= |bs| && out == BlockBytes(bs, i)
      invariant forall j :: 0 <= j < i ==> BlockFits(bs[j])
    {
      var b := SerializeBlock(bs[i]);
      if b.None? {
        return None;
      }
      out := out + b.value;
      i := i + 1;
    }
    r := Some(out);
  }

  /** If every record fits and the list is sorted, so is every block. */
  lemma {:induction false} BlocksFit(bs: seq<seq<Record>>, rs: seq<Record>)
    requires Flatten(bs) == rs && Sorted(rs)
    requires forall i :: 0 <= i < |bs| ==> 0 < |bs[i]| < WORD
    requires forall i :: 0 <= i < |rs| ==> RecordFits(rs[i])
    ensures forall i :: 0 <= i < |bs| ==> BlockFits(bs[i])
  {
    hide RecordFits;
    if |bs| > 0 {
      var n := |bs| - 1;
      var front := Flatten(bs[..n]);
      SortedHalves(front, bs[n]);
      forall i | 0 <= i < |bs[n]| ensures RecordFits(bs[n][i]) { assert rs[|front| + i] == bs[n][i]; }
      forall i | 0 <= i < |front| ensures RecordFits(front[i]) { assert rs[i] == front[i]; }
      BlocksFit(bs[..n], front);
    }
  }

  lemma SomeBlockUnfit(bs: seq<seq<Record>>, rs: seq<Record>)
    requires Flatten(bs) == rs && (forall i :: 0 <= i < |bs| ==> 0 < |bs[i]| < WORD)
    requires !forall i :: 0 <= i < |bs| ==> BlockFits(bs[i])
    ensures !(Sorted(rs) && forall i :: 0 <= i < |rs| ==> RecordFits(rs[i]))
  {
    if Sorted(rs) && forall i :: 0 <= i < |rs| ==> RecordFits(rs[i]) { BlocksFit(bs, rs); }
  }

  lemma AllFit(bs: seq<seq<Record>>, rs: seq<Record>)
    requires Flatten(bs) == rs && forall i :: 0 <= i < |bs| ==> BlockFits(bs[i])
    ensures forall i :: 0 <= i < |rs| ==> RecordFits(rs[i]) && |rs[i].key| > 0
  {
    AllRecordsFit(bs);
  }
}
