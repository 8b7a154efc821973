/** The parts of a table file as bytes: checksummed header, data blocks, index and footer. */
module SSTableFormat {
  import opened Basics
  import opened Encoding
  import opened Records
  import Checksum
  import M = MemTables

  const WORD: nat := 0x1_0000_0000
  const LONG: nat := 0x1_0000_0000_0000_0000
  const HEADER_MAGIC: seq<Byte> := [78, 66, 76, 83, 83, 84, 48, 49]
  const BLOCK_MAGIC: seq<Byte> := [78, 66, 76, 68, 65, 84, 48, 49]
  const INDEX_MAGIC: seq<Byte> := [78, 66, 76, 73, 68, 88, 48, 49]
  const FOOTER_MAGIC: seq<Byte> := [78, 66, 76, 70, 84, 82, 48, 49]
  const VERSION: nat := 1
  const HEADER_SIZE: nat := 56
  const FOOTER_SIZE: nat := 64
  const PREFIX: nat := 12
  const RECORD_FIXED: nat := 20
  const ENTRY_FIXED: nat := 24

  // -------------------------------------------------------------- checksummed parts

  function Checked(p: seq<Byte>): seq<Byte> {
    p + Le(Checksum.Sum(p), 4)
  }

  function Payload(s: seq<Byte>): Option<seq<Byte>> {
    if |s| < 4 || FromLe(s[|s| - 4..]) != Checksum.Sum(s[..|s| - 4]) then None else Some(s[..|s| - 4])
  }

  lemma CheckedParts(p: seq<Byte>)
    ensures var s := Checked(p);
            |s| == |p| + 4 && s[..|s| - 4] == p && s[|s| - 4..] == Le(Checksum.Sum(p), 4)
    ensures FromLe(Le(Checksum.Sum(p), 4)) == Checksum.Sum(p)
  {
    hide Checksum.Sum;
    Widths();
    LeRoundTrip(Checksum.Sum(p), 4);
  }

  lemma PayloadOf(p: seq<Byte>)
    ensures Payload(Checked(p)) == Some(p)
  {
    hide Checksum.Sum, Checked, FromLe, Le;
    CheckedParts(p);
  }

  /** One altered byte, in the payload or in the stored checksum, is always noticed. */
  lemma AlteredChecked(p: seq<Byte>, t: seq<Byte>, i: nat)
    requires Checksum.OneByteApart(Checked(p), t, i)
    ensures Payload(t) == None
  {
    hide Checksum.Sum, Checked, FromLe, Le;
    var s := Checked(p);
    var n := |p|;
    CheckedParts(p);
    if i < n {
      assert t[..n][..i] == t[..i] && s[..n][..i] == s[..i];
      assert t[..n][i + 1..] == t[i + 1..][..n - i - 1] && s[..n][i + 1..] == s[i + 1..][..n - i - 1];
      Checksum.OneByteChangesSum(s[..n], t[..n], i);
      assert t[n..] == t[i + 1..][n - i - 1..] && s[n..] == s[i + 1..][n - i - 1..];
    } else {
      assert t[..n] == t[..i][..n] == s[..i][..n] == s[..n];
      assert t[n..][i - n] == t[i] && s[n..][i - n] == s[i];
      FromLeRoundTrip(s[n..]);
      FromLeRoundTrip(t[n..]);
    }
  }

  // --------------------------------------------------------------------- records

  predicate RecordFits(r: Record) {
    && 0 < |r.key| <= M.MAX_KEY && |r.entry.value| <= M.MAX_VALUE
    && 0 < r.entry.seqno < LONG && (r.entry.deleted ==> r.entry.value == [])
  }

  function RecordSize(r: Record): nat {
    RECORD_FIXED + |r.key| + |r.entry.value|
  }

  function Fixed(r: Record): (s: seq<Byte>)
    ensures |s| == RECORD_FIXED
  {
    Le(|r.key|, 4) + Le(|r.entry.value|, 4) + Le(r.entry.seqno, 8) + [if r.entry.deleted then 1 else 0, 0, 0, 0]
  }

  function EncodeRecord(r: Record): seq<Byte> {
    Fixed(r) + (r.key + r.entry.value)
  }

  function TakeSized(s: seq<Byte>, keySize: nat, valueSize: nat, seqno: nat, flags: nat): Option<(Record, seq<Byte>)>
    requires |s| >= RECORD_FIXED
  {
    var n := RECORD_FIXED + keySize + valueSize;
    if keySize == 0 || keySize > M.MAX_KEY || valueSize > M.MAX_VALUE || seqno == 0 || flags > 1 then None
    else if flags == 1 && valueSize != 0 then None
    else if |s| < n then None
    else Some((Record(s[RECORD_FIXED..RECORD_FIXED + keySize], Entry(s[RECORD_FIXED + keySize..n], seqno, flags == 1)), s[n..]))
  }

  function TakeRecord(s: seq<Byte>): Option<(Record, seq<Byte>)> {
    if |s| < RECORD_FIXED then None
    else TakeSized(s, FromLe(s[..4]), FromLe(s[4..8]), FromLe(s[8..16]), s[16])
  }

  lemma FixedFields(r: Record, rest: seq<Byte>)
    requires RecordFits(r)
    ensures var s := Fixed(r) + rest;
            && FromLe(s[..4]) == |r.key| && FromLe(s[4..8]) == |r.entry.value|
            && FromLe(s[8..16]) == r.entry.seqno && s[16] == if r.entry.deleted then 1 else 0
  {
    var s := Fixed(r) + rest;
    Widths();
    assert s[..4] == Le(|r.key|, 4) && s[4..8] == Le(|r.entry.value|, 4) && s[8..16] == Le(r.entry.seqno, 8);
    LeRoundTrip(|r.key|, 4);
    LeRoundTrip(|r.entry.value|, 4);
    LeRoundTrip(r.entry.seqno, 8);
  }

  lemma TakeRecordOf(r: Record, rest: seq<Byte>)
    requires RecordFits(r)
    ensures TakeRecord(EncodeRecord(r) + rest) == Some((r, rest))
  {
    hide Fixed, FromLe;
    var s := EncodeRecord(r) + rest;
    assert s == Fixed(r) + (r.key + r.entry.value + rest);
    FixedFields(r, r.key + r.entry.value + rest);
    var k, n := RECORD_FIXED + |r.key|, RecordSize(r);
    assert s[RECORD_FIXED..k] == r.key && s[k..n] == r.entry.value && s[n..] == rest;
  }

  // ----------------------------------------------------------------- data blocks

  function EncodeRecords(rs: seq<Record>): seq<Byte> {
    if |rs| == 0 then [] else EncodeRecord(rs[0]) + EncodeRecords(rs[1..])
  }

  function BlockPayload(rs: seq<Record>): seq<Byte> {
    BLOCK_MAGIC + Le(|rs|, 4) + EncodeRecords(rs)
  }

  /** Read n records whose keys rise strictly from `previous`; the empty key is before all. */
  function TakeRecords(s: seq<Byte>, n: nat, previous: Key): Option<(seq<Record>, seq<Byte>)> {
    if n == 0 then Some(([], s))
    else
      match TakeRecord(s)
      case None => None
      case Some((r, rest)) =>
        if |previous| > 0 && AtMost(r.key, previous) then None
        else
          match TakeRecords(rest, n - 1, r.key)
          case None => None
          case Some((rs, rest')) => Some(([r] + rs, rest'))
  }

  function ParseBlock(s: seq<Byte>): Option<seq<Record>> {
    if |s| < PREFIX + 4 then None
    else
      match Payload(s)
      case None => None
      case Some(p) =>
        if p[..8] != BLOCK_MAGIC || FromLe(p[8..12]) == 0 then None
        else
          match TakeRecords(p[PREFIX..], FromLe(p[8..12]), [])
          case None => None
          case Some((rs, rest)) => if rest == [] then Some(rs) else None
  }

  ghost predicate BlockFits(rs: seq<Record>) {
    0 < |rs| < WORD && Sorted(rs) && forall i :: 0 <= i < |rs| ==> RecordFits(rs[i])
  }

  ghost predicate After(previous: Key, rs: seq<Record>) {
    |previous| > 0 && |rs| > 0 ==> Less(previous, rs[0].key)
  }

  lemma {:induction false} TakeRecordsOf(rs: seq<Record>, previous: Key, rest: seq<Byte>)
    requires Sorted(rs) && After(previous, rs) && forall i :: 0 <= i < |rs| ==> RecordFits(rs[i])
    ensures TakeRecords(EncodeRecords(rs) + rest, |rs|, previous) == Some((rs, rest))
  {
    hide TakeRecord, EncodeRecord;
    if |rs| == 0 {
      assert EncodeRecords(rs) + rest == rest;
    } else {
      var tail := EncodeRecords(rs[1..]) + rest;
      assert EncodeRecords(rs) + rest == EncodeRecord(rs[0]) + tail;
      TakeRecordOf(rs[0], tail);
      TakeRecordsOf(rs[1..], rs[0].key, rest);
      assert [rs[0]] + rs[1..] == rs;
    }
  }

  lemma BlockPrefix(rs: seq<Record>)
    requires |rs| < WORD
    ensures var p := BlockPayload(rs);
            |p| >= PREFIX && p[..8] == BLOCK_MAGIC && FromLe(p[8..12]) == |rs| && p[PREFIX..] == EncodeRecords(rs)
  {
    hide EncodeRecords;
    Widths();
    assert BlockPayload(rs)[8..12] == Le(|rs|, 4);
    LeRoundTrip(|rs|, 4);
  }

  /** A data block parses back to its records. */
  lemma BlockRoundTrip(rs: seq<Record>)
    requires BlockFits(rs)
    ensures ParseBlock(Checked(BlockPayload(rs))) == Some(rs)
  {
    hide Payload, Checked, BlockPayload, TakeRecords, EncodeRecords, FromLe;
    BlockPrefix(rs);
    CheckedLength(BlockPayload(rs));
    PayloadOf(BlockPayload(rs));
    TakeRecordsOf(rs, [], []);
    assert EncodeRecords(rs) + [] == EncodeRecords(rs);
  }

  lemma CheckedLength(p: seq<Byte>)
    ensures |Checked(p)| == |p| + 4
  {}

  function BlockSize(rs: seq<Record>): nat {
    if |rs| == 0 then PREFIX + 4 else BlockSize(rs[..|rs| - 1]) + RecordSize(rs[|rs| - 1])
  }

  lemma {:induction false} EncodeRecordsSnoc(rs: seq<Record>, r: Record)
    ensures EncodeRecords(rs + [r]) == EncodeRecords(rs) + EncodeRecord(r)
  {
    hide EncodeRecord;
    if |rs| == 0 {
      assert rs + [r] == [r] && [r][1..] == [];
    } else {
      assert (rs + [r])[1..] == rs[1..] + [r];
      EncodeRecordsSnoc(rs[1..], r);
    }
  }

  /** The running size of the writer is the encoded size. */
  lemma {:induction false} BlockSizeIs(rs: seq<Record>)
    ensures |Checked(BlockPayload(rs))| == BlockSize(rs)
  {
    CheckedLength(BlockPayload(rs));
    if |rs| == 0 {
    } else {
      var n := |rs| - 1;
      BlockSizeIs(rs[..n]);
      CheckedLength(BlockPayload(rs[..n]));
      EncodeRecordsSnoc(rs[..n], rs[n]);
      assert rs[..n] + [rs[n]] == rs;
    }
  }

  /** Build a block; refused exactly when some record is out of bounds or out of order. */
  method SerializeBlock(rs: seq<Record>) returns (r: Option<seq<Byte>>)
    ensures r.Some? <==> BlockFits(rs)
    ensures r.Some? ==> r.value == Checked(BlockPayload(rs))
  {
    hide EncodeRecord, Le, Checked;
    if |rs| == 0 || |rs| >= WORD {
      return None;
    }
    var out := AppendNumber(BLOCK_MAGIC, |rs|, 4);
    var previous: Key, i := [], 0;
    while i < |rs|
      invariant 0 <= i <= |rs| && out == BLOCK_MAGIC + Le(|rs|, 4) + EncodeRecords(rs[..i])
      invariant previous == if i == 0 then [] else rs[i - 1].key
      invariant Sorted(rs[..i]) && forall j :: 0 <= j < i ==> RecordFits(rs[j])
    {
      if !RecordFits(rs[i]) {
        return None;
      }
      if |previous| > 0 && AtMost(rs[i].key, previous) {
        NotSorted(rs, i);
        return None;
      }
      SortedMore(rs, i);
      EncodeRecordsSnoc(rs[..i], rs[i]);
      assert rs[..i + 1] == rs[..i] + [rs[i]];
      out := AppendRecord(out, rs[i]);
      previous := rs[i].key;
      i := i + 1;
    }
    assert rs[..i] == rs;
    r := Some(out);
    var crc := Checksum.Crc32(out);
    var sealed := AppendNumber(out, crc as nat, 4);
    SealedIs(out, sealed);
    r := Some(sealed);
  }

  lemma SealedIs(p: seq<Byte>, s: seq<Byte>)
    requires s == p + Le(Checksum.Crc(p) as nat, 4)
    ensures s == Checked(p)
  {}

  lemma NotSorted(rs: seq<Record>, i: nat)
    requires 1 <= i < |rs| && AtMost(rs[i].key, rs[i - 1].key)
    ensures !Sorted(rs)
  {
    assert !Less(rs[i - 1].key, rs[i].key);
  }

  lemma SortedMore(rs: seq<Record>, i: nat)
    requires i < |rs| && Sorted(rs[..i]) && (i > 0 ==> Less(rs[i - 1].key, rs[i].key))
    ensures Sorted(rs[..i + 1])
  {
    forall a, b | 0 <= a < b < i + 1 ensures Less(rs[a].key, rs[b].key) {
      if b < i {
        assert Less(rs[..i][a].key, rs[..i][b].key);
      } else if a < i - 1 {
        assert Less(rs[..i][a].key, rs[..i][i - 1].key);
        LessTransitive(rs[a].key, rs[i - 1].key, rs[i].key);
      }
    }
  }

  method AppendRecord(out: seq<Byte>, r: Record) returns (s: seq<Byte>)
    ensures s == out + EncodeRecord(r)
  {
    hide Le;
    s := AppendNumber(out, |r.key|, 4);
    s := AppendNumber(s, |r.entry.value|, 4);
    s := AppendNumber(s, r.entry.seqno, 8);
    s := s + [if r.entry.deleted then 1 else 0];
    s := s + [0, 0, 0];
    assert s == out + Fixed(r);
    s := s + r.key;
    s := s + r.entry.value;
  }

  /** The cursor loop over a block. */
  method ParseDataBlock(s: seq<Byte>) returns (r: Option<seq<Record>>)
    ensures r == ParseBlock(s)
  {
    hide Payload, TakeRecord, FromLe;
    if |s| < PREFIX + 4 {
      return None;
    }
    var payload := Payload(s);
    if payload.None? {
      return None;
    }
    PayloadLength(s);
    var p := payload.value;
    if p[..8] != BLOCK_MAGIC {
      return None;
    }
    var count := ReadNumber(p[8..12]);
    if count == 0 {
      return None;
    }
    var rs: seq<Record>, cursor, previous: Key, i := [], PREFIX, [], 0;
    PrependNone(TakeRecords(p[PREFIX..], count, []));
    while i < count
      invariant 0 <= i <= count && PREFIX <= cursor <= |p|
      invariant TakeRecords(p[PREFIX..], count, []) == Prepend(rs, TakeRecords(p[cursor..], count - i, previous))
    {
      var next := TakeRecord(p[cursor..]);
      if next.None? {
        return None;
      }
      TakeRecordLength(p[cursor..]);
      var (record, rest) := next.value;
      if |previous| > 0 && AtMost(record.key, previous) {
        return None;
      }
      cursor := |p| - |rest|;
      PrependMore(rs, record, TakeRecords(rest, count - i - 1, record.key));
      rs, previous := rs + [record], record.key;
      i := i + 1;
    }
    assert rs + [] == rs;
    if cursor != |p| {
      return None;
    }
    r := Some(rs);
  }

  lemma PayloadLength(s: seq<Byte>)
    requires Payload(s).Some?
    ensures |Payload(s).value| + 4 == |s|
  {}

  lemma TakeRecordLength(s: seq<Byte>)
    requires TakeRecord(s).Some?
    ensures |TakeRecord(s).value.1| <= |s| && TakeRecord(s).value.1 == s[|s| - |TakeRecord(s).value.1|..]
  {}

  ghost function Prepend(rs: seq<Record>, r: Option<(seq<Record>, seq<Byte>)>): Option<(seq<Record>, seq<Byte>)> {
    if r.None? then None else Some((rs + r.value.0, r.value.1))
  }

  lemma PrependNone(r: Option<(seq<Record>, seq<Byte>)>)
    ensures Prepend([], r) == r
  {
    if r.Some? { assert [] + r.value.0 == r.value.0; }
  }

  lemma PrependMore(rs: seq<Record>, e: Record, r: Option<(seq<Record>, seq<Byte>)>)
    ensures r.Some? ==> Prepend(rs + [e], r) == Some((rs + ([e] + r.value.0), r.value.1))
  {
    if r.Some? { assert rs + [e] + r.value.0 == rs + ([e] + r.value.0); }
  }

  // -------------------------------------------------------------------- the index

  datatype IndexEntry = IndexEntry(first: Key, last: Key, offset: nat, size: nat)

  predicate EntryFits(e: IndexEntry) {
    && 0 < |e.first| <= M.MAX_KEY && 0 < |e.last| <= M.MAX_KEY && AtMost(e.first, e.last)
    && e.offset < LONG && 0 < e.size < LONG
  }

  function EntryFixed(e: IndexEntry): (s: seq<Byte>)
    ensures |s| == ENTRY_FIXED
  {
    Le(e.offset, 8) + Le(e.size, 8) + Le(|e.first|, 4) + Le(|e.last|, 4)
  }

  function EncodeEntry(e: IndexEntry): seq<Byte> {
    EntryFixed(e) + (e.first + e.last)
  }

  function TakeEntrySized(s: seq<Byte>, offset: nat, size: nat, firstSize: nat, lastSize: nat): Option<(IndexEntry, seq<Byte>)>
    requires |s| >= ENTRY_FIXED
  {
    var n := ENTRY_FIXED + firstSize + lastSize;
    if firstSize == 0 || firstSize > M.MAX_KEY || lastSize == 0 || lastSize > M.MAX_KEY || size == 0 then None
    else if |s| < n then None
    else
      var e := IndexEntry(s[ENTRY_FIXED..ENTRY_FIXED + firstSize], s[ENTRY_FIXED + firstSize..n], offset, size);
      if Less(e.last, e.first) then None else Some((e, s[n..]))
  }

  function TakeEntry(s: seq<Byte>): Option<(IndexEntry, seq<Byte>)> {
    if |s| < ENTRY_FIXED then None
    else TakeEntrySized(s, FromLe(s[..8]), FromLe(s[8..16]), FromLe(s[16..20]), FromLe(s[20..24]))
  }

  lemma EntryFields(e: IndexEntry, rest: seq<Byte>)
    requires EntryFits(e)
    ensures var s := EntryFixed(e) + rest;
            && FromLe(s[..8]) == e.offset && FromLe(s[8..16]) == e.size
            && FromLe(s[16..20]) == |e.first| && FromLe(s[20..24]) == |e.last|
  {
    var s := EntryFixed(e) + rest;
    Widths();
    assert s[..8] == Le(e.offset, 8) && s[8..16] == Le(e.size, 8) && s[16..20] == Le(|e.first|, 4) && s[20..24] == Le(|e.last|, 4);
    LeRoundTrip(e.offset, 8);
    LeRoundTrip(e.size, 8);
    LeRoundTrip(|e.first|, 4);
    LeRoundTrip(|e.last|, 4);
  }

  lemma TakeEntryOf(e: IndexEntry, rest: seq<Byte>)
    requires EntryFits(e)
    ensures TakeEntry(EncodeEntry(e) + rest) == Some((e, rest))
  {
    hide EntryFixed, FromLe;
    var s := EncodeEntry(e) + rest;
    assert s == EntryFixed(e) + (e.first + e.last + rest);
    EntryFields(e, e.first + e.last + rest);
    var k, n := ENTRY_FIXED + |e.first|, ENTRY_FIXED + |e.first| + |e.last|;
    var tail := s[ENTRY_FIXED..];
    assert tail == e.first + (e.last + rest);
    assert s[ENTRY_FIXED..k] == tail[..|e.first|] && s[k..n] == tail[|e.first|..n - ENTRY_FIXED] && s[n..] == tail[n - ENTRY_FIXED..];
    assert tail[..|e.first|] == e.first && tail[|e.first|..n - ENTRY_FIXED] == e.last && tail[n - ENTRY_FIXED..] == rest;
  }

  function EncodeEntries(es: seq<IndexEntry>): seq<Byte> {
    if |es| == 0 then [] else EncodeEntry(es[0]) + EncodeEntries(es[1..])
  }

  function IndexPayload(es: seq<IndexEntry>): seq<Byte> {
    INDEX_MAGIC + Le(|es|, 4) + EncodeEntries(es)
  }

  function TakeEntries(s: seq<Byte>, n: nat, previous: Key): Option<(seq<IndexEntry>, seq<Byte>)> {
    if n == 0 then Some(([], s))
    else
      match TakeEntry(s)
      case None => None
      case Some((e, rest)) =>
        if |previous| > 0 && AtMost(e.first, previous) then None
        else
          match TakeEntries(rest, n - 1, e.last)
          case None => None
          case Some((es, rest')) => Some(([e] + es, rest'))
  }

  function ParseIndex(s: seq<Byte>): Option<seq<IndexEntry>> {
    if |s| < PREFIX + 4 then None
    else
      match Payload(s)
      case None => None
      case Some(p) =>
        if p[..8] != INDEX_MAGIC || FromLe(p[8..12]) == 0 then None
        else
          match TakeEntries(p[PREFIX..], FromLe(p[8..12]), [])
          case None => None
          case Some((es, rest)) => if rest == [] then Some(es) else None
  }

  /** Entries whose key ranges follow one another. */
  ghost predicate Chained(es: seq<IndexEntry>) {
    forall i :: 1 <= i < |es| ==> Less(es[i - 1].last, es[i].first)
  }

  ghost predicate IndexFits(es: seq<IndexEntry>) {
    0 < |es| < WORD && Chained(es) && forall i :: 0 <= i < |es| ==> EntryFits(es[i])
  }

  lemma {:induction false} TakeEntriesOf(es: seq<IndexEntry>, previous: Key, rest: seq<Byte>)
    requires Chained(es) && (|previous| > 0 && |es| > 0 ==> Less(previous, es[0].first))
    requires forall i :: 0 <= i < |es| ==> EntryFits(es[i])
    ensures TakeEntries(EncodeEntries(es) + rest, |es|, previous) == Some((es, rest))
  {
    hide TakeEntry, EncodeEntry;
    if |es| == 0 {
      assert EncodeEntries(es) + rest == rest;
    } else {
      var tail := EncodeEntries(es[1..]) + rest;
      assert EncodeEntries(es) + rest == EncodeEntry(es[0]) + tail;
      TakeEntryOf(es[0], tail);
      TakeEntriesOf(es[1..], es[0].last, rest);
      assert [es[0]] + es[1..] == es;
    }
  }

  lemma IndexPrefix(es: seq<IndexEntry>)
    requires |es| < WORD
    ensures var p := IndexPayload(es);
            |p| >= PREFIX && p[..8] == INDEX_MAGIC && FromLe(p[8..12]) == |es| && p[PREFIX..] == EncodeEntries(es)
  {
    hide EncodeEntries;
    Widths();
    assert IndexPayload(es)[8..12] == Le(|es|, 4);
    LeRoundTrip(|es|, 4);
  }

  /** An index parses back to its entries. */
  lemma IndexRoundTrip(es: seq<IndexEntry>)
    requires IndexFits(es)
    ensures ParseIndex(Checked(IndexPayload(es))) == Some(es)
  {
    hide Payload, Checked, IndexPayload, TakeEntries, EncodeEntries, FromLe;
    IndexPrefix(es);
    CheckedLength(IndexPayload(es));
    PayloadOf(IndexPayload(es));
    TakeEntriesOf(es, [], []);
    assert EncodeEntries(es) + [] == EncodeEntries(es);
  }

  // ------------------------------------------------------------- header and footer

  datatype Header = Header(generation: nat, count: nat, blocks: nat, target: nat, minSeq: nat, maxSeq: nat)

  datatype Footer = Footer(indexOffset: nat, indexSize: nat, count: nat, blocks: nat, minSeq: nat, maxSeq: nat)

  function HeaderPayload(h: Header): (s: seq<Byte>)
    ensures |s| == HEADER_SIZE - 4
  {
    HEADER_MAGIC + Le(VERSION, 2) + Le(HEADER_SIZE, 2) + Le(h.generation, 8) + Le(h.count, 8)
    + Le(h.blocks, 4) + Le(h.target, 4) + Le(h.minSeq, 8) + Le(h.maxSeq, 8)
  }

  predicate HeaderFits(h: Header) {
    && h.generation < LONG && 0 < h.count < LONG && 0 < h.blocks < WORD && h.target < WORD
    && 0 < h.minSeq <= h.maxSeq < LONG
  }

  function ParseHeader(s: seq<Byte>): Option<Header> {
    if |s| != HEADER_SIZE then None
    else
      match Payload(s)
      case None => None
      case Some(p) =>
        if p[..8] != HEADER_MAGIC || FromLe(p[8..10]) != VERSION || FromLe(p[10..12]) != HEADER_SIZE then None
        else
          var h := Header(FromLe(p[12..20]), FromLe(p[20..28]), FromLe(p[28..32]), FromLe(p[32..36]), FromLe(p[36..44]), FromLe(p[44..52]));
          if h.count == 0 || h.blocks == 0 || h.minSeq == 0 || h.minSeq > h.maxSeq then None else Some(h)
  }

  lemma HeaderFields(h: Header)
    ensures var p := HeaderPayload(h);
            && p[..8] == HEADER_MAGIC && p[8..10] == Le(VERSION, 2) && p[10..12] == Le(HEADER_SIZE, 2)
            && p[12..20] == Le(h.generation, 8) && p[20..28] == Le(h.count, 8) && p[28..32] == Le(h.blocks, 4)
            && p[32..36] == Le(h.target, 4) && p[36..44] == Le(h.minSeq, 8) && p[44..52] == Le(h.maxSeq, 8)
  {
    hide Le;
  }

  lemma HeaderRoundTrip(h: Header)
    requires HeaderFits(h)
    ensures ParseHeader(Checked(HeaderPayload(h))) == Some(h)
  {
    hide Payload, Checked, HeaderPayload, FromLe, Le;
    HeaderFields(h);
    CheckedLength(HeaderPayload(h));
    PayloadOf(HeaderPayload(h));
    Widths();
    LeRoundTrip(VERSION, 2);
    LeRoundTrip(HEADER_SIZE, 2);
    LeRoundTrip(h.generation, 8);
    LeRoundTrip(h.count, 8);
    LeRoundTrip(h.blocks, 4);
    LeRoundTrip(h.target, 4);
    LeRoundTrip(h.minSeq, 8);
    LeRoundTrip(h.maxSeq, 8);
  }

  function FooterPayload(f: Footer): (s: seq<Byte>)
    ensures |s| == FOOTER_SIZE - 4
  {
    FOOTER_MAGIC + Le(VERSION, 2) + Le(FOOTER_SIZE, 2) + Le(f.indexOffset, 8) + Le(f.indexSize, 8) + Le(f.count, 8)
    + Le(f.blocks, 4) + Le(0, 4) + Le(f.minSeq, 8) + Le(f.maxSeq, 8)
  }

  predicate FooterFits(f: Footer) {
    && f.indexOffset < LONG && 0 < f.indexSize < LONG && 0 < f.count < LONG && 0 < f.blocks < WORD
    && 0 < f.minSeq <= f.maxSeq < LONG
  }

  function ParseFooter(s: seq<Byte>): Option<Footer> {
    if |s| != FOOTER_SIZE then None
    else
      match Payload(s)
      case None => None
      case Some(p) =>
        if p[..8] != FOOTER_MAGIC || FromLe(p[8..10]) != VERSION || FromLe(p[10..12]) != FOOTER_SIZE then None
        else
          var f := Footer(FromLe(p[12..20]), FromLe(p[20..28]), FromLe(p[28..36]), FromLe(p[36..40]), FromLe(p[44..52]), FromLe(p[52..60]));
          if f.indexSize == 0 || f.count == 0 || f.blocks == 0 || f.minSeq == 0 || f.minSeq > f.maxSeq then None else Some(f)
  }

  lemma FooterFields(f: Footer)
    ensures var p := FooterPayload(f);
            && p[..8] == FOOTER_MAGIC && p[8..10] == Le(VERSION, 2) && p[10..12] == Le(FOOTER_SIZE, 2)
            && p[12..20] == Le(f.indexOffset, 8) && p[20..28] == Le(f.indexSize, 8) && p[28..36] == Le(f.count, 8)
            && p[36..40] == Le(f.blocks, 4) && p[44..52] == Le(f.minSeq, 8) && p[52..60] == Le(f.maxSeq, 8)
  {
    hide Le;
  }

  lemma FooterRoundTrip(f: Footer)
    requires FooterFits(f)
    ensures ParseFooter(Checked(FooterPayload(f))) == Some(f)
  {
    hide Payload, Checked, FooterPayload, FromLe, Le;
    FooterFields(f);
    CheckedLength(FooterPayload(f));
    PayloadOf(FooterPayload(f));
    Widths();
    LeRoundTrip(VERSION, 2);
    LeRoundTrip(FOOTER_SIZE, 2);
    LeRoundTrip(f.indexOffset, 8);
    LeRoundTrip(f.indexSize, 8);
    LeRoundTrip(f.count, 8);
    LeRoundTrip(f.blocks, 4);
    LeRoundTrip(f.minSeq, 8);
    LeRoundTrip(f.maxSeq, 8);
  }
}
