/** The write-ahead log as bytes: encoding, the scan, and what a torn tail leaves. */
module WalFile {
  import opened Basics
  import opened Encoding
  import opened Directories
  import Checksum
  import M = MemTables
  import Store = PersistentStore

  const MAGIC: seq<Byte> := [78, 75, 86, 87]
  const VERSION: nat := 1
  const HEADER: nat := 16
  const TRAILER: nat := 4

  datatype Issue =
    | IncompleteRecord | InvalidMagic | UnsupportedVersion | InvalidOperation
    | InvalidRecordLength | InvalidDeleteRecord | ChecksumMismatch

  function Kind(op: Op): Byte { if op.Put? then 1 else 2 }

  function ValueOf(op: Op): Text { if op.Put? then op.value else [] }

  function Header(op: Op): (s: seq<Byte>)
    ensures |s| == HEADER
  {
    MAGIC + Le(VERSION, 2) + [Kind(op), 0] + Le(|op.key|, 4) + Le(|ValueOf(op)|, 4)
  }

  function Body(op: Op): seq<Byte> {
    Header(op) + (op.key + ValueOf(op))
  }

  function Encode(op: Op): seq<Byte> {
    Body(op) + Le(Checksum.Sum(Body(op)), 4)
  }

  function EncodeAll(ops: seq<Op>): seq<Byte> {
    if |ops| == 0 then [] else EncodeAll(ops[..|ops| - 1]) + Encode(ops[|ops| - 1])
  }

  /** Append one record's bytes, as serialize does; an invalid record is refused. */
  method Serialize(op: Op) returns (r: Option<seq<Byte>>)
    ensures r == if Store.ValidOp(op) then Some(Encode(op)) else None
  {
    if !M.ValidKey(op.key) || (op.Put? && !M.ValidValue(op.value)) {
      return None;
    }
    var out := MAGIC;
    out := AppendNumber(out, VERSION, 2);
    out := out + [Kind(op)];
    out := out + [0];
    assert out == MAGIC + Le(VERSION, 2) + [Kind(op), 0];
    out := AppendNumber(out, |op.key|, 4);
    out := AppendNumber(out, |ValueOf(op)|, 4);
    out := out + op.key;
    out := out + ValueOf(op);
    assert out == Body(op);
    var crc := Checksum.Crc32(out);
    out := AppendNumber(out, crc as nat, 4);
    r := Some(out);
  }

  // ------------------------------------------------------------------- one record

  datatype Outcome = End | Bad(issue: Issue) | Good(op: Op, size: nat)

  /** What the scan makes of the bytes from a record boundary on. */
  function ReadRecord(s: seq<Byte>): Outcome {
    if |s| == 0 then End
    else if |s| < HEADER then Bad(IncompleteRecord)
    else if s[..4] != MAGIC then Bad(InvalidMagic)
    else if FromLe(s[4..6]) != VERSION then Bad(UnsupportedVersion)
    else if s[6] != 1 && s[6] != 2 then Bad(InvalidOperation)
    else if s[7] != 0 then Bad(InvalidRecordLength)
    else ReadSized(s, FromLe(s[8..12]), FromLe(s[12..16]))
  }

  function ReadSized(s: seq<Byte>, keySize: nat, valueSize: nat): Outcome
    requires |s| >= HEADER
  {
    var n := HEADER + keySize + valueSize;
    if keySize == 0 || keySize > M.MAX_KEY || valueSize > M.MAX_VALUE then Bad(InvalidRecordLength)
    else if s[6] == 2 && valueSize != 0 then Bad(InvalidDeleteRecord)
    else if |s| < n + TRAILER then Bad(IncompleteRecord)
    else if FromLe(s[n..n + TRAILER]) != Checksum.Sum(s[..n]) then Bad(ChecksumMismatch)
    else
      var key := s[HEADER..HEADER + keySize];
      Good(if s[6] == 1 then Op.Put(key, s[HEADER + keySize..n]) else Delete(key), n + TRAILER)
  }

  lemma HeaderFields(op: Op, rest: seq<Byte>)
    requires Store.ValidOp(op)
    ensures var s := Header(op) + rest;
            && s[..4] == MAGIC && FromLe(s[4..6]) == VERSION && s[6] == Kind(op) && s[7] == 0
            && FromLe(s[8..12]) == |op.key| && FromLe(s[12..16]) == |ValueOf(op)|
  {
    var s := Header(op) + rest;
    Widths();
    assert s[..4] == MAGIC && s[4..6] == Le(VERSION, 2) && s[8..12] == Le(|op.key|, 4) && s[12..16] == Le(|ValueOf(op)|, 4);
    LeRoundTrip(VERSION, 2);
    LeRoundTrip(|op.key|, 4);
    LeRoundTrip(|ValueOf(op)|, 4);
  }

  /** A sound header leads to the sized part. */
  lemma ReadFramed(op: Op, s: seq<Byte>)
    requires Store.ValidOp(op) && |s| >= HEADER && s[..HEADER] == Header(op)
    ensures ReadRecord(s) == ReadSized(s, |op.key|, |ValueOf(op)|) && s[6] == Kind(op)
  {
    hide Header, ReadSized, FromLe;
    assert s == Header(op) + s[HEADER..];
    HeaderFields(op, s[HEADER..]);
  }

  lemma SumFits(s: seq<Byte>)
    ensures FromLe(Le(Checksum.Sum(s), 4)) == Checksum.Sum(s)
  {
    Widths();
    LeRoundTrip(Checksum.Sum(s), 4);
  }

  /** A record that is there in full is read back. */
  lemma ReadWhole(op: Op, rest: seq<Byte>)
    requires Store.ValidOp(op)
    ensures ReadRecord(Encode(op) + rest) == Good(op, |Encode(op)|)
  {
    hide Header, ReadRecord, Body, Encode, Le, FromLe, Checksum.Sum;
    EncodeParts(op);
    var s, n, e := Encode(op) + rest, |Body(op)|, Encode(op);
    assert s[..n] == e[..n] && s[n..n + TRAILER] == e[n..];
    assert s[..HEADER] == e[..HEADER];
    ReadFramed(op, s);
    SumFits(Body(op));
    BodyParts(op);
    assert s[HEADER..HEADER + |op.key|] == s[..n][HEADER..HEADER + |op.key|];
    assert s[HEADER + |op.key|..n] == s[..n][HEADER + |op.key|..];
  }

  lemma BodyParts(op: Op)
    ensures |Body(op)| == HEADER + |op.key| + |ValueOf(op)|
    ensures Body(op)[HEADER..HEADER + |op.key|] == op.key && Body(op)[HEADER + |op.key|..] == ValueOf(op)
  {
    hide Header;
  }

  /** A record cut anywhere inside is reported incomplete. */
  lemma ReadTorn(op: Op, n: nat)
    requires Store.ValidOp(op) && 0 < n < |Encode(op)|
    ensures ReadRecord(Encode(op)[..n]) == Bad(IncompleteRecord)
  {
    hide Header;
    var s := Encode(op)[..n];
    if n >= HEADER {
      var rest := s[HEADER..];
      assert s == Header(op) + rest;
      HeaderFields(op, rest);
    }
  }

  // --------------------------------------------------------------------- the scan

  datatype ScanResult = ScanResult(ops: seq<Op>, validBytes: nat, issue: Option<Issue>)

  function Scan(s: seq<Byte>): ScanResult {
    match ReadRecord(s)
    case End => ScanResult([], 0, None)
    case Bad(issue) => ScanResult([], 0, Some(issue))
    case Good(op, size) =>
      var r := Scan(s[size..]);
      ScanResult([op] + r.ops, size + r.validBytes, r.issue)
  }

  lemma ReadBounds(s: seq<Byte>)
    requires ReadRecord(s).Good?
    ensures 0 < ReadRecord(s).size <= |s|
  {
    hide FromLe, Checksum.Sum;
  }

  /** The scan loop: it visits records in order until the end or the first issue. */
  method ScanFile(s: seq<Byte>) returns (r: ScanResult)
    ensures r == Scan(s)
  {
    hide ReadRecord;
    var ops: seq<Op>, valid := [], 0;
    assert s[0..] == s;
    while true
      invariant 0 <= valid <= |s|
      invariant var rest := Scan(s[valid..]);
                Scan(s) == ScanResult(ops + rest.ops, valid + rest.validBytes, rest.issue)
      decreases |s| - valid
    {
      var next := ReadRecord(s[valid..]);
      match next {
        case End =>
          return ScanResult(ops, valid, None);
        case Bad(issue) =>
          return ScanResult(ops, valid, Some(issue));
        case Good(op, size) =>
          ReadBounds(s[valid..]);
          assert s[valid..][size..] == s[valid + size..];
          ghost var rest := Scan(s[valid + size..]);
          assert ops + ([op] + rest.ops) == ops + [op] + rest.ops;
          ops, valid := ops + [op], valid + size;
      }
    }
  }

  ghost predicate AllValid(ops: seq<Op>) {
    forall i :: 0 <= i < |ops| ==> Store.ValidOp(ops[i])
  }

  lemma {:induction false} EncodeCons(ops: seq<Op>)
    requires |ops| > 0
    ensures EncodeAll(ops) == Encode(ops[0]) + EncodeAll(ops[1..])
  {
    hide Encode;
    var n := |ops| - 1;
    if n == 0 {
      assert EncodeAll(ops[..0]) == [] && EncodeAll(ops[1..]) == [];
    } else {
      EncodeCons(ops[..n]);
      assert ops[..n][1..] == ops[1..][..n - 1];
    }
  }

  lemma {:induction false} EncodeSplit(a: seq<Op>, b: seq<Op>)
    ensures EncodeAll(a + b) == EncodeAll(a) + EncodeAll(b)
  {
    hide Encode;
    if |b| == 0 {
      assert a + b == a;
    } else {
      var n := |b| - 1;
      assert (a + b)[..|a| + n] == a + b[..n];
      EncodeSplit(a, b[..n]);
    }
  }

  /** How many records lie wholly inside the first n bytes. */
  function Whole(ops: seq<Op>, n: nat): (j: nat)
    ensures j <= |ops|
  {
    if |ops| == 0 || |Encode(ops[0])| > n then 0 else 1 + Whole(ops[1..], n - |Encode(ops[0])|)
  }

  /** Whole is the greatest count of records that fit. */
  lemma {:induction false} WholeIsGreatest(ops: seq<Op>, n: nat, k: nat)
    requires k <= |ops|
    ensures k <= Whole(ops, n) <==> |EncodeAll(ops[..k])| <= n
  {
    hide Encode;
    if k > 0 {
      var r := ops[..k];
      EncodeCons(r);
      assert r[1..] == ops[1..][..k - 1];
      if |Encode(ops[0])| <= n { WholeIsGreatest(ops[1..], n - |Encode(ops[0])|, k - 1); }
    }
  }

  /** Torn tail: after a cut at any byte, the scan visits exactly the records wholly inside, its
      valid bytes end the last of them, and it reports an incomplete record exactly when the cut
      is off a boundary. */
  lemma {:induction false} TornTail(ops: seq<Op>, n: nat)
    requires AllValid(ops) && n <= |EncodeAll(ops)|
    ensures var j := Whole(ops, n);
            Scan(EncodeAll(ops)[..n]) ==
            ScanResult(ops[..j], |EncodeAll(ops[..j])|, if |EncodeAll(ops[..j])| == n then None else Some(IncompleteRecord))
    decreases |ops|
  {
    hide ReadRecord, Encode;
    if |ops| == 0 || n == 0 {
      ScanNothing(EncodeAll(ops)[..n]);
      if |ops| > 0 { EncodePositive(ops[0]); }
      assert EncodeAll(ops[..0]) == [];
    } else {
      EncodeCons(ops);
      var e, rest := Encode(ops[0]), EncodeAll(ops[1..]);
      var s := EncodeAll(ops)[..n];
      assert Store.ValidOp(ops[0]);
      if |e| > n {
        assert s == e[..n];
        ReadTorn(ops[0], n);
        assert EncodeAll(ops[..0]) == [];
      } else {
        var m := n - |e|;
        assert s == e + rest[..m] && s[|e|..] == rest[..m];
        ReadWhole(ops[0], rest[..m]);
        TornTail(ops[1..], m);
        var j := Whole(ops[1..], m);
        EncodeCons(ops[..j + 1]);
        assert ops[..j + 1][1..] == ops[1..][..j] && [ops[0]] + ops[1..][..j] == ops[..j + 1];
      }
    }
  }

  lemma ScanNothing(s: seq<Byte>)
    requires |s| == 0
    ensures Scan(s) == ScanResult([], 0, None)
  {}

  lemma EncodePositive(op: Op)
    ensures |Encode(op)| >= 20
  {}

  /** A complete log scans as itself. */
  lemma ScanAll(ops: seq<Op>)
    requires AllValid(ops)
    ensures Scan(EncodeAll(ops)) == ScanResult(ops, |EncodeAll(ops)|, None)
  {
    hide Scan, Encode, EncodeAll, Whole;
    var n := |EncodeAll(ops)|;
    assert EncodeAll(ops)[..n] == EncodeAll(ops) && ops[..|ops|] == ops;
    WholeIsGreatest(ops, n, |ops|);
    TornTail(ops, n);
  }

  /** A crash inside an append: scanning finds the log before it or the log with it; truncating at
      the valid bytes and appending again scans as the concatenation. */
  lemma TruncateThenAppend(ops: seq<Op>, n: nat, more: seq<Op>)
    requires AllValid(ops) && AllValid(more) && n <= |EncodeAll(ops)|
    ensures var cut := EncodeAll(ops)[..n];
            var kept := Scan(cut);
            && kept.validBytes <= n
            && Scan(cut[..kept.validBytes] + EncodeAll(more)).ops == kept.ops + more
            && Scan(cut[..kept.validBytes] + EncodeAll(more)).issue == None
  {
    hide Scan, Encode, EncodeAll, Whole;
    TornTail(ops, n);
    var j := Whole(ops, n);
    WholeIsGreatest(ops, n, j);
    EncodeSplit(ops[..j], ops[j..]);
    assert ops[..j] + ops[j..] == ops;
    var v := |EncodeAll(ops[..j])|;
    assert EncodeAll(ops)[..n][..v] == EncodeAll(ops[..j]);
    EncodeSplit(ops[..j], more);
    ScanAll(ops[..j] + more);
  }

  lemma AppendIsAtomic(ops: seq<Op>, op: Op, n: nat)
    requires AllValid(ops) && Store.ValidOp(op) && n <= |Encode(op)|
    ensures Scan(EncodeAll(ops) + Encode(op)[..n]).ops == if n == |Encode(op)| then ops + [op] else ops
  {
    hide Scan, Encode;
    var all, e := ops + [op], Encode(op);
    assert all[..|ops|] == ops;
    var k := |EncodeAll(ops)| + n;
    assert EncodeAll(all)[..k] == EncodeAll(ops) + e[..n];
    TornTail(all, k);
    WholeIsGreatest(all, k, |ops|);
    WholeIsGreatest(all, k, |ops| + 1);
    assert all[..|ops| + 1] == all;
  }

  /** Altering one byte of a record, whatever follows it, is always noticed, outside the two lengths,
      which say where the record ends. */
  lemma AlteredRecord(op: Op, t: seq<Byte>, i: nat, rest: seq<Byte>)
    requires Store.ValidOp(op) && (i < 8 || HEADER <= i) && Checksum.OneByteApart(Encode(op), t, i)
    ensures ReadRecord(t + rest).Bad? && (HEADER <= i ==> ReadRecord(t + rest) == Bad(ChecksumMismatch))
  {
    hide ReadRecord, Encode;
    if i < 8 { AlteredHeader(op, t, i, rest); } else { AlteredPayload(op, t, i, rest); }
  }

  /** In the magic, the version, the operation or the reserved byte. */
  lemma AlteredHeader(op: Op, t: seq<Byte>, i: nat, rest: seq<Byte>)
    requires Store.ValidOp(op) && i < 8 && Checksum.OneByteApart(Encode(op), t, i)
    ensures ReadRecord(t + rest).Bad?
  {
    hide Header, Encode, Body, Le, FromLe, Checksum.Sum;
    var s, n, u := Encode(op), |Body(op)|, t + rest;
    EncodeParts(op);
    assert s == Header(op) + s[HEADER..];
    HeaderFields(op, s[HEADER..]);
    SameBeyond(s, t, i);
    assert u[..4] == t[..4] && u[4..6] == t[4..6] && u[8..12] == t[8..12] && u[12..16] == t[12..16];
    if i < 4 {
      assert t[..4][i] != s[..4][i];
    } else if i < 6 {
      assert t[4..6][i - 4] == t[i] && s[4..6][i - 4] == s[i];
      AlteredNumber(s[4..6], t[4..6], i - 4);
    } else if i == 6 {
      SumFits(Body(op));
      AlteredInside(s, t, i, n);
      Checksum.OneByteChangesSum(s[..n], t[..n], i);
      assert u[n..n + TRAILER] == t[n..] && u[..n] == t[..n];
    }
  }

  lemma SameBeyond(s: seq<Byte>, t: seq<Byte>, i: nat)
    requires Checksum.OneByteApart(s, t, i) && i < 8 && |s| >= HEADER
    ensures |t| == |s| && t[8..12] == s[8..12] && t[12..16] == s[12..16] && t[i] != s[i]
    ensures forall j :: 0 <= j < |s| && j != i ==> t[j] == s[j]
  {
    forall j | 0 <= j < |s| && j != i ensures t[j] == s[j] {
      if j < i { assert t[..i][j] == s[..i][j]; } else { assert t[i + 1..][j - i - 1] == s[i + 1..][j - i - 1]; }
    }
  }

  lemma AlteredPayload(op: Op, t: seq<Byte>, i: nat, rest: seq<Byte>)
    requires Store.ValidOp(op) && HEADER <= i && Checksum.OneByteApart(Encode(op), t, i)
    ensures ReadRecord(t + rest) == Bad(ChecksumMismatch)
  {
    hide Header, Encode, ReadRecord, Body, Le, FromLe, Checksum.Sum;
    var s, n, u := Encode(op), |Body(op)|, t + rest;
    EncodeParts(op);
    assert u[..HEADER] == t[..HEADER] == t[..i][..HEADER] == s[..i][..HEADER] == s[..HEADER];
    ReadFramed(op, u);
    SumFits(Body(op));
    assert u[n..n + TRAILER] == t[n..] && u[..n] == t[..n];
    if i < n {
      AlteredInside(s, t, i, n);
      Checksum.OneByteChangesSum(s[..n], t[..n], i);
    } else {
      assert t[..n] == t[..i][..n] == s[..i][..n] == s[..n];
      assert s[n..][i - n] == s[i] && t[n..][i - n] == t[i];
      AlteredNumber(s[n..], t[n..], i - n);
    }
  }

  /** The scan passes whole records and goes on with what follows. */
  lemma {:induction false} ScanAfter(ops: seq<Op>, x: seq<Byte>)
    requires AllValid(ops)
    ensures Scan(EncodeAll(ops) + x) ==
            ScanResult(ops + Scan(x).ops, |EncodeAll(ops)| + Scan(x).validBytes, Scan(x).issue)
  {
    hide ReadRecord, Encode;
    if |ops| == 0 {
      assert EncodeAll(ops) + x == x;
    } else {
      EncodeCons(ops);
      var e, rest := Encode(ops[0]), EncodeAll(ops[1..]) + x;
      assert EncodeAll(ops) + x == e + rest && (e + rest)[|e|..] == rest;
      assert Store.ValidOp(ops[0]);
      ReadWhole(ops[0], rest);
      ScanAfter(ops[1..], x);
      assert ops == [ops[0]] + ops[1..];
    }
  }

  /** A log with one byte altered in record j, outside that record's lengths, scans to the records before
      it, its valid bytes end there, and an issue is reported. */
  lemma AlteredLog(ops: seq<Op>, j: nat, i: nat, t: seq<Byte>)
    requires AllValid(ops) && j < |ops| && i < |Encode(ops[j])| && (i < 8 || HEADER <= i)
    requires Checksum.OneByteApart(EncodeAll(ops), t, |EncodeAll(ops[..j])| + i)
    ensures var r := Scan(t);
            && r.ops == ops[..j] && r.validBytes == |EncodeAll(ops[..j])| && r.issue.Some?
            && (HEADER <= i ==> r.issue == Some(ChecksumMismatch))
  {
    hide Scan, ReadRecord, Encode, EncodeAll;
    var before, e, after := EncodeAll(ops[..j]), Encode(ops[j]), EncodeAll(ops[j + 1..]);
    EncodeSplit(ops[..j], ops[j..]);
    EncodeCons(ops[j..]);
    assert ops[..j] + ops[j..] == ops && ops[j..][1..] == ops[j + 1..];
    var x := AlteredPart(before, e, after, t, i);
    AlteredRecord(ops[j], x, i, after);
    ScanAfter(ops[..j], x + after);
    ScanBad(x + after);
    assert t == before + (x + after);
  }

  /** A byte altered in the middle part of three leaves the other two alone. */
  lemma AlteredPart(a: seq<Byte>, b: seq<Byte>, c: seq<Byte>, t: seq<Byte>, i: nat) returns (x: seq<Byte>)
    requires i < |b| && Checksum.OneByteApart(a + (b + c), t, |a| + i)
    ensures t == a + (x + c) && Checksum.OneByteApart(b, x, i)
  {
    var s, k := a + (b + c), |a| + i;
    x := t[|a|..|a| + |b|];
    forall p | 0 <= p < |s| && p != k ensures t[p] == s[p] {
      if p < k { assert t[..k][p] == s[..k][p]; } else { assert t[k + 1..][p - k - 1] == s[k + 1..][p - k - 1]; }
    }
    forall p | 0 <= p < |b| ensures x[p] == t[|a| + p] && s[|a| + p] == b[p] {}
    assert x[..i] == b[..i] && x[i + 1..] == b[i + 1..];
    forall p | 0 <= p < |t| ensures t[p] == (a + (x + c))[p] {
      if p < |a| { assert s[p] == a[p]; } else if p >= |a| + |b| { assert s[p] == c[p - |a| - |b|]; }
    }
    assert t == a + (x + c);
  }

  lemma ScanBad(s: seq<Byte>)
    requires ReadRecord(s).Bad?
    ensures Scan(s) == ScanResult([], 0, Some(ReadRecord(s).issue))
  {}

  lemma EncodeParts(op: Op)
    ensures |Encode(op)| == |Body(op)| + TRAILER && |Body(op)| == HEADER + |op.key| + |ValueOf(op)|
    ensures Encode(op)[..|Body(op)|] == Body(op) && Encode(op)[|Body(op)|..] == Le(Checksum.Sum(Body(op)), 4)
    ensures Encode(op)[..HEADER] == Header(op)
  {}

  lemma AlteredInside(s: seq<Byte>, t: seq<Byte>, i: nat, n: nat)
    requires Checksum.OneByteApart(s, t, i) && i < n <= |s|
    ensures Checksum.OneByteApart(s[..n], t[..n], i) && s[n..] == t[n..]
  {
    assert s[..n][..i] == s[..i] && t[..n][..i] == t[..i];
    assert s[..n][i + 1..] == s[i + 1..][..n - i - 1] && t[..n][i + 1..] == t[i + 1..][..n - i - 1];
    assert s[n..] == s[i + 1..][n - i - 1..] && t[n..] == t[i + 1..][n - i - 1..];
  }

  lemma AlteredNumber(a: seq<Byte>, b: seq<Byte>, i: nat)
    requires |a| == |b| && i < |a| && a[i] != b[i]
    ensures FromLe(a) != FromLe(b)
  {
    FromLeRoundTrip(a);
    FromLeRoundTrip(b);
  }
}
