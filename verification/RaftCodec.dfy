/** The files of src/raft/storage.cpp and the payload of a state machine snapshot, as bytes. Node
    identifiers are byte strings here, and a command is the source's record of type, key, value. */
module RaftCodec {
  import opened Basics
  import opened Encoding
  import Checksum
  import Records

  datatype Command = Command(kind: Byte, key: Text, value: Text)

  datatype Entry = Entry(index: nat, term: nat, command: Command)

  datatype Hard = Hard(term: nat, votedFor: Text, commit: nat, applied: nat)

  datatype SnapshotFile = SnapshotFile(index: nat, term: nat, payload: Text)

  const WORD: nat := 0x1_0000_0000
  const LONG: nat := 0x1_0000_0000_0000_0000
  const VERSION: nat := 1
  const HARD_MAGIC: seq<Byte> := [78, 66, 72, 82]
  const LOG_MAGIC: seq<Byte> := [78, 66, 82, 76]
  const SNAPSHOT_MAGIC: seq<Byte> := [78, 66, 82, 83]

  // ------------------------------------------------------------- commands, entries

  ghost predicate CommandFits(c: Command) {
    c.kind <= 2 && |c.key| < WORD && |c.value| < WORD
  }

  ghost predicate EntryFits(e: Entry) {
    e.index < LONG && e.term < LONG && CommandFits(e.command)
  }

  function EncodeCommand(c: Command): seq<Byte> {
    [c.kind] + (Prefixed(c.key) + Prefixed(c.value))
  }

  function TakeCommand(s: seq<Byte>): Option<(Command, seq<Byte>)> {
    if |s| < 1 || s[0] > 2 then None
    else
      match TakePrefixed(s[1..])
      case None => None
      case Some((key, rest)) =>
        match TakePrefixed(rest)
        case None => None
        case Some((value, rest')) => Some((Command(s[0], key, value), rest'))
  }

  lemma TakeCommandOf(c: Command, rest: seq<Byte>)
    requires CommandFits(c)
    ensures TakeCommand(EncodeCommand(c) + rest) == Some((c, rest))
  {
    hide TakePrefixed, Prefixed;
    var s := EncodeCommand(c) + rest;
    assert s[1..] == Prefixed(c.key) + (Prefixed(c.value) + rest);
    TakeText(c.key, Prefixed(c.value) + rest);
    TakeText(c.value, rest);
  }

  function EncodeEntry(e: Entry): seq<Byte> {
    Le(e.index, 8) + (Le(e.term, 8) + EncodeCommand(e.command))
  }

  function TakeEntry(s: seq<Byte>): Option<(Entry, seq<Byte>)> {
    match TakeNumber(s, 8)
    case None => None
    case Some((index, s1)) =>
      match TakeNumber(s1, 8)
      case None => None
      case Some((term, s2)) =>
        match TakeCommand(s2)
        case None => None
        case Some((command, s3)) => Some((Entry(index, term, command), s3))
  }

  lemma TakeEntryOf(e: Entry, rest: seq<Byte>)
    requires EntryFits(e)
    ensures TakeEntry(EncodeEntry(e) + rest) == Some((e, rest))
  {
    hide TakeNumber, TakeCommand, EncodeCommand, Le;
    Widths();
    var s1 := Le(e.term, 8) + (EncodeCommand(e.command) + rest);
    assert EncodeEntry(e) + rest == Le(e.index, 8) + s1;
    TakeLe(e.index, 8, s1);
    TakeLe(e.term, 8, EncodeCommand(e.command) + rest);
    TakeCommandOf(e.command, rest);
  }

  // --------------------------------------------------------------------- the log

  function EncodeEntries(es: seq<Entry>): seq<Byte> {
    if |es| == 0 then [] else EncodeEntry(es[0]) + EncodeEntries(es[1..])
  }

  function EncodeLog(es: seq<Entry>): seq<Byte> {
    Le(|es|, 8) + EncodeEntries(es)
  }

  function TakeEntries(s: seq<Byte>, n: nat): Option<(seq<Entry>, seq<Byte>)> {
    if n == 0 then Some(([], s))
    else
      match TakeEntry(s)
      case None => None
      case Some((e, rest)) =>
        match TakeEntries(rest, n - 1)
        case None => None
        case Some((es, rest')) => Some(([e] + es, rest'))
  }

  predicate InSequence(es: seq<Entry>) {
    forall i :: 1 <= i < |es| ==> es[i].index == es[i - 1].index + 1
  }

  function DecodeLog(payload: seq<Byte>): Option<seq<Entry>> {
    match TakeNumber(payload, 8)
    case None => None
    case Some((n, rest)) =>
      match TakeEntries(rest, n)
      case None => None
      case Some((es, rest')) => if rest' == [] && InSequence(es) then Some(es) else None
  }

  lemma {:induction false} TakeEntriesOf(es: seq<Entry>, rest: seq<Byte>)
    requires forall i :: 0 <= i < |es| ==> EntryFits(es[i])
    ensures TakeEntries(EncodeEntries(es) + rest, |es|) == Some((es, rest))
  {
    hide TakeEntry, EncodeEntry;
    if |es| == 0 {
      assert EncodeEntries(es) + rest == rest;
    } else {
      assert EncodeEntries(es) + rest == EncodeEntry(es[0]) + (EncodeEntries(es[1..]) + rest);
      TakeEntryOf(es[0], EncodeEntries(es[1..]) + rest);
      TakeEntriesOf(es[1..], rest);
      assert [es[0]] + es[1..] == es;
    }
  }

  /** A saved log loads as itself exactly when its indices follow one another. */
  lemma LogRoundTrip(es: seq<Entry>)
    requires |es| < LONG && forall i :: 0 <= i < |es| ==> EntryFits(es[i])
    ensures DecodeLog(EncodeLog(es)) == if InSequence(es) then Some(es) else None
  {
    hide TakeNumber, TakeEntries, EncodeEntries;
    Widths();
    TakeLe(|es|, 8, EncodeEntries(es));
    TakeEntriesOf(es, []);
    assert EncodeEntries(es) + [] == EncodeEntries(es);
  }

  // ----------------------------------------------------- hard state and snapshot

  function EncodeHard(h: Hard): seq<Byte> {
    Le(h.term, 8) + (Prefixed(h.votedFor) + (Le(h.commit, 8) + Le(h.applied, 8)))
  }

  function DecodeHard(payload: seq<Byte>): Option<Hard> {
    match TakeNumber(payload, 8)
    case None => None
    case Some((term, s1)) =>
      match TakePrefixed(s1)
      case None => None
      case Some((voted, s2)) =>
        match TakeNumber(s2, 8)
        case None => None
        case Some((commit, s3)) =>
          match TakeNumber(s3, 8)
          case None => None
          case Some((applied, s4)) => if s4 == [] then Some(Hard(term, voted, commit, applied)) else None
  }

  lemma HardRoundTrip(h: Hard)
    requires h.term < LONG && h.commit < LONG && h.applied < LONG && |h.votedFor| < WORD
    ensures DecodeHard(EncodeHard(h)) == Some(h)
  {
    hide TakeNumber, TakePrefixed, Prefixed, Le;
    Widths();
    var tail := Le(h.commit, 8) + Le(h.applied, 8);
    TakeLe(h.term, 8, Prefixed(h.votedFor) + tail);
    TakeText(h.votedFor, tail);
    TakeLe(h.commit, 8, Le(h.applied, 8));
    assert Le(h.applied, 8) + [] == Le(h.applied, 8);
    TakeLe(h.applied, 8, []);
  }

  function EncodeSnapshot(s: SnapshotFile): seq<Byte> {
    Le(s.index, 8) + (Le(s.term, 8) + Prefixed(s.payload))
  }

  function DecodeSnapshot(payload: seq<Byte>): Option<SnapshotFile> {
    match TakeNumber(payload, 8)
    case None => None
    case Some((index, s1)) =>
      match TakeNumber(s1, 8)
      case None => None
      case Some((term, s2)) =>
        match TakePrefixed(s2)
        case None => None
        case Some((image, s3)) => if s3 == [] then Some(SnapshotFile(index, term, image)) else None
  }

  lemma SnapshotRoundTrip(s: SnapshotFile)
    requires s.index < LONG && s.term < LONG && |s.payload| < WORD
    ensures DecodeSnapshot(EncodeSnapshot(s)) == Some(s)
  {
    hide TakeNumber, TakePrefixed, Prefixed, Le;
    Widths();
    TakeLe(s.index, 8, Le(s.term, 8) + Prefixed(s.payload));
    TakeLe(s.term, 8, Prefixed(s.payload));
    assert Prefixed(s.payload) + [] == Prefixed(s.payload);
    TakeText(s.payload, []);
  }

  // ------------------------------------------------------------------ the envelope

  function Wrap(magic: seq<Byte>, payload: seq<Byte>): seq<Byte> {
    magic + Le(VERSION, 4) + payload + Le(Checksum.Sum(payload), 4)
  }

  function Unwrap(magic: seq<Byte>, s: seq<Byte>): Option<seq<Byte>> {
    if |s| < 12 || s[..4] != magic || FromLe(s[4..8]) != VERSION then None
    else if FromLe(s[|s| - 4..]) != Checksum.Sum(s[8..|s| - 4]) then None
    else Some(s[8..|s| - 4])
  }

  lemma WrapParts(magic: seq<Byte>, payload: seq<Byte>)
    requires |magic| == 4
    ensures var s := Wrap(magic, payload);
            && |s| == 12 + |payload| && s[..4] == magic && s[4..8] == Le(VERSION, 4)
            && s[8..|s| - 4] == payload && s[|s| - 4..] == Le(Checksum.Sum(payload), 4)
    ensures FromLe(Le(VERSION, 4)) == VERSION && FromLe(Le(Checksum.Sum(payload), 4)) == Checksum.Sum(payload)
  {
    hide Checksum.Sum;
    Widths();
    LeRoundTrip(VERSION, 4);
    LeRoundTrip(Checksum.Sum(payload), 4);
  }

  lemma WrapRoundTrip(magic: seq<Byte>, payload: seq<Byte>)
    requires |magic| == 4
    ensures Unwrap(magic, Wrap(magic, payload)) == Some(payload)
  {
    hide Wrap, Checksum.Sum, FromLe, Le;
    WrapParts(magic, payload);
  }

  /** A file with any one byte altered is refused, wherever the byte is. */
  lemma AlteredFileRefused(magic: seq<Byte>, payload: seq<Byte>, t: seq<Byte>, i: nat)
    requires |magic| == 4 && Checksum.OneByteApart(Wrap(magic, payload), t, i)
    ensures Unwrap(magic, t) == None
  {
    hide Wrap, Checksum.Sum, FromLe, Le;
    var s := Wrap(magic, payload);
    var n := |s| - 4;
    WrapParts(magic, payload);
    SameElsewhere(s, t, i);
    if i < 4 {
      assert t[..4][i] != magic[i];
    } else if i < 8 {
      SlicesApart(s, t, i, 4, 8);
    } else if i < n {
      PayloadApart(s, t, i, n);
      Checksum.OneByteChangesSum(s[8..n], t[8..n], i - 8);
      assert t[n..] == s[n..];
    } else {
      assert t[8..n] == s[8..n];
      SlicesApart(s, t, i, n, |s|);
      assert t[n..|s|] == t[n..] && s[n..|s|] == s[n..];
    }
  }

  lemma SameElsewhere(s: seq<Byte>, t: seq<Byte>, i: nat)
    requires Checksum.OneByteApart(s, t, i)
    ensures |s| == |t| && s[i] != t[i] && forall j :: 0 <= j < |s| && j != i ==> s[j] == t[j]
  {
    forall j | 0 <= j < |s| && j != i ensures s[j] == t[j] {
      if j < i { assert s[..i][j] == t[..i][j]; } else { assert s[i + 1..][j - i - 1] == t[i + 1..][j - i - 1]; }
    }
  }

  lemma SlicesApart(s: seq<Byte>, t: seq<Byte>, i: nat, a: nat, b: nat)
    requires |s| == |t| && a <= i < b <= |s| && s[i] != t[i]
    ensures FromLe(s[a..b]) != FromLe(t[a..b])
  {
    assert s[a..b][i - a] != t[a..b][i - a];
    FromLeRoundTrip(s[a..b]);
    FromLeRoundTrip(t[a..b]);
  }

  lemma PayloadApart(s: seq<Byte>, t: seq<Byte>, i: nat, n: nat)
    requires |s| == |t| && 8 <= i < n <= |s| && s[i] != t[i] && forall j :: 0 <= j < |s| && j != i ==> s[j] == t[j]
    ensures Checksum.OneByteApart(s[8..n], t[8..n], i - 8)
  {}

  // -------------------------------------------------------------- saving and loading

  method SaveLog(es: seq<Entry>) returns (file: seq<Byte>)
    ensures file == Wrap(LOG_MAGIC, EncodeLog(es))
  {
    hide Wrap, Le, EncodeEntry;
    var out := AppendNumber([], |es|, 8);
    var i := 0;
    assert es[0..] == es && out == Le(|es|, 8);
    while i < |es|
      invariant 0 <= i <= |es| && out + EncodeEntries(es[i..]) == EncodeLog(es)
    {
      assert es[i..][1..] == es[i + 1..];
      ghost var before := out;
      out := AppendEntry(out, es[i]);
      assert out + EncodeEntries(es[i + 1..]) == before + (EncodeEntry(es[i]) + EncodeEntries(es[i + 1..]));
      i := i + 1;
    }
    assert es[i..] == [] && out + [] == out;
    file := WrapBytes(LOG_MAGIC, out);
  }

  method AppendEntry(out: seq<Byte>, e: Entry) returns (r: seq<Byte>)
    ensures r == out + EncodeEntry(e)
  {
    hide Le, Prefixed, EncodeCommand;
    r := AppendNumber(out, e.index, 8);
    r := AppendNumber(r, e.term, 8);
    r := AppendCommand(r, e.command);
    assert r == out + (Le(e.index, 8) + (Le(e.term, 8) + EncodeCommand(e.command)));
  }

  method AppendCommand(out: seq<Byte>, c: Command) returns (r: seq<Byte>)
    ensures r == out + EncodeCommand(c)
  {
    hide Prefixed;
    r := out + [c.kind];
    r := AppendText(r, c.key);
    r := AppendText(r, c.value);
    assert r == out + ([c.kind] + (Prefixed(c.key) + Prefixed(c.value)));
  }

  method AppendText(out: seq<Byte>, b: Text) returns (r: seq<Byte>)
    ensures r == out + Prefixed(b)
  {
    hide Le;
    r := AppendNumber(out, |b|, 4);
    r := r + b;
    assert r == out + (Le(|b|, 4) + b);
  }

  method WrapBytes(magic: seq<Byte>, payload: seq<Byte>) returns (r: seq<Byte>)
    ensures r == Wrap(magic, payload)
  {
    r := AppendNumber(magic, VERSION, 4);
    r := r + payload;
    var crc := Checksum.Crc32(payload);
    r := AppendNumber(r, crc as nat, 4);
  }

  method LoadLog(file: seq<Byte>) returns (r: Option<seq<Entry>>)
    ensures r == match Unwrap(LOG_MAGIC, file)
                 case None => None
                 case Some(payload) => DecodeLog(payload)
  {
    hide TakeEntry, Unwrap, TakeNumber;
    var payload := Unwrap(LOG_MAGIC, file);
    if payload.None? {
      return None;
    }
    var decoder := new Decoder(payload.value);
    var count := decoder.Number(8);
    if count.None? {
      return None;
    }
    var es := ReadEntries(decoder, count.value);
    if es.None? {
      return None;
    }
    var done := decoder.AtEnd();
    if !done {
      return None;
    }
    var i := 1;
    while i < |es.value|
      invariant 1 <= i && forall j :: 1 <= j < i && j < |es.value| ==> es.value[j].index == es.value[j - 1].index + 1
    {
      if es.value[i].index != es.value[i - 1].index + 1 {
        return None;
      }
      i := i + 1;
    }
    r := es;
  }

  method ReadEntries(decoder: Decoder, n: nat) returns (r: Option<seq<Entry>>)
    requires decoder.Valid()
    modifies decoder
    ensures decoder.Valid()
    ensures match TakeEntries(old(decoder.Rest()), n)
            case None => r.None?
            case Some((es, rest)) => r == Some(es) && decoder.Rest() == rest
  {
    hide TakeEntry;
    ghost var start := decoder.Rest();
    var es: seq<Entry>, i := [], 0;
    JoinedNone(TakeEntries(start, n));
    while i < n
      invariant 0 <= i <= n && decoder.Valid()
      invariant TakeEntries(start, n) == Joined(es, TakeEntries(decoder.Rest(), n - i))
    {
      var e := ReadEntry(decoder);
      if e.None? {
        return None;
      }
      JoinedMore(es, e.value, TakeEntries(decoder.Rest(), n - i - 1));
      es := es + [e.value];
      i := i + 1;
    }
    assert es + [] == es;
    r := Some(es);
  }

  ghost function Joined(es: seq<Entry>, r: Option<(seq<Entry>, seq<Byte>)>): Option<(seq<Entry>, seq<Byte>)> {
    if r.None? then None else Some((es + r.value.0, r.value.1))
  }

  lemma JoinedNone(r: Option<(seq<Entry>, seq<Byte>)>)
    ensures Joined([], r) == r
  {
    if r.Some? { assert [] + r.value.0 == r.value.0; }
  }

  lemma JoinedMore(es: seq<Entry>, e: Entry, r: Option<(seq<Entry>, seq<Byte>)>)
    ensures r.Some? ==> Joined(es + [e], r) == Some((es + ([e] + r.value.0), r.value.1))
  {
    if r.Some? { assert es + [e] + r.value.0 == es + ([e] + r.value.0); }
  }

  method ReadEntry(decoder: Decoder) returns (r: Option<Entry>)
    requires decoder.Valid()
    modifies decoder
    ensures decoder.Valid()
    ensures match TakeEntry(old(decoder.Rest()))
            case None => r.None?
            case Some((e, rest)) => r == Some(e) && decoder.Rest() == rest
  {
    hide TakePrefixed;
    var index := decoder.Number(8);
    if index.None? { return None; }
    var term := decoder.Number(8);
    if term.None? { return None; }
    ghost var rest := decoder.Rest();
    var kind := decoder.Number(1);
    if kind.None? { return None; }
    OneByteNumber(rest);
    if kind.value > 2 { return None; }
    var key := decoder.Text();
    if key.None? { return None; }
    var value := decoder.Text();
    if value.None? { return None; }
    r := Some(Entry(index.value, term.value, Command(kind.value, key.value, value.value)));
  }

  lemma OneByteNumber(s: seq<Byte>)
    requires |s| >= 1
    ensures FromLe(s[..1]) == s[0]
  {
    assert s[..1][1..] == [];
  }

  // ------------------------------------------------------- state machine snapshots

  /** The map's pairs in key order, as they are walked. */
  ghost predicate InKeyOrder(ps: seq<(Text, Text)>) {
    forall i, j :: 0 <= i < j < |ps| ==> Records.Less(ps[i].0, ps[j].0)
  }

  predicate PairFits(p: (Text, Text)) {
    0 < |p.0| <= 1024 && |p.1| <= 1024 * 1024
  }

  function EncodePairs(ps: seq<(Text, Text)>): seq<Byte> {
    if |ps| == 0 then [] else Prefixed(ps[0].0) + (Prefixed(ps[0].1) + EncodePairs(ps[1..]))
  }

  function EncodeMap(ps: seq<(Text, Text)>): seq<Byte> {
    Le(VERSION, 4) + (Le(|ps|, 8) + EncodePairs(ps))
  }

  function MapOf(ps: seq<(Text, Text)>): map<Text, Text> {
    if |ps| == 0 then map[] else MapOf(ps[..|ps| - 1])[ps[|ps| - 1].0 := ps[|ps| - 1].1]
  }

  /** Read n pairs into m; a key already there, or one that is out of bounds, is refused. */
  function TakePairs(s: seq<Byte>, n: nat, m: map<Text, Text>): Option<(map<Text, Text>, seq<Byte>)> {
    if n == 0 then Some((m, s))
    else
      match TakePrefixed(s)
      case None => None
      case Some((key, s1)) =>
        match TakePrefixed(s1)
        case None => None
        case Some((value, s2)) =>
          if !PairFits((key, value)) || key in m then None else TakePairs(s2, n - 1, m[key := value])
  }

  function RestoreMap(payload: seq<Byte>): Option<map<Text, Text>> {
    match TakeNumber(payload, 4)
    case None => None
    case Some((version, s1)) =>
      if version != VERSION then None
      else
        match TakeNumber(s1, 8)
        case None => None
        case Some((n, s2)) =>
          match TakePairs(s2, n, map[])
          case None => None
          case Some((m, rest)) => if rest == [] then Some(m) else None
  }

  lemma {:induction false} MapOfKeys(ps: seq<(Text, Text)>, k: Text)
    ensures k in MapOf(ps) <==> exists i :: 0 <= i < |ps| && ps[i].0 == k
  {
    if |ps| > 0 {
      var n := |ps| - 1;
      MapOfKeys(ps[..n], k);
      if k in MapOf(ps[..n]) {
        var i :| 0 <= i < n && ps[..n][i].0 == k;
        assert ps[i].0 == k;
      }
      if exists i :: 0 <= i < |ps| && ps[i].0 == k {
        var i :| 0 <= i < |ps| && ps[i].0 == k;
        if i < n { assert ps[..n][i].0 == k; }
      }
    }
  }

  lemma {:induction false} TakePairsOf(ps: seq<(Text, Text)>, j: nat)
    requires InKeyOrder(ps) && j <= |ps| && forall i :: 0 <= i < |ps| ==> PairFits(ps[i])
    ensures TakePairs(EncodePairs(ps[j..]), |ps| - j, MapOf(ps[..j])) == Some((MapOf(ps), []))
    decreases |ps| - j
  {
    hide TakePrefixed, Prefixed;
    if j == |ps| {
      assert ps[..j] == ps;
    } else {
      var p, tail := ps[j], EncodePairs(ps[j + 1..]);
      assert ps[j..][1..] == ps[j + 1..];
      TakeText(p.0, Prefixed(p.1) + tail);
      TakeText(p.1, tail);
      forall i | 0 <= i < j ensures ps[..j][i].0 != p.0 { Records.LessIrreflexive(p.0); }
      MapOfKeys(ps[..j], p.0);
      assert ps[..j + 1][..j] == ps[..j];
      TakePairsOf(ps, j + 1);
    }
  }

  /** A snapshot of the map restores the map. */
  lemma MapRoundTrip(ps: seq<(Text, Text)>)
    requires InKeyOrder(ps) && |ps| < LONG && forall i :: 0 <= i < |ps| ==> PairFits(ps[i])
    ensures RestoreMap(EncodeMap(ps)) == Some(MapOf(ps))
  {
    hide TakeNumber, TakePairs, EncodePairs, Le;
    Widths();
    TakeLe(VERSION, 4, Le(|ps|, 8) + EncodePairs(ps));
    TakeLe(|ps|, 8, EncodePairs(ps));
    TakePairsOf(ps, 0);
    assert ps[0..] == ps && MapOf(ps[..0]) == map[];
  }

  /** Every finite map has its walk in key order, so every image can be snapshot and restored. */
  lemma {:induction false} Walk(m: map<Text, Text>) returns (ps: seq<(Text, Text)>)
    ensures InKeyOrder(ps) && MapOf(ps) == m && |ps| == |m|
    ensures forall i :: 0 <= i < |ps| ==> ps[i].0 in m && m[ps[i].0] == ps[i].1
    decreases |m|
  {
    if |m| == 0 {
      ps := [];
    } else {
      var last := Greatest(m.Keys);
      var rest := m - {last};
      assert rest.Keys == m.Keys - {last};
      var front := Walk(rest);
      ps := front + [(last, m[last])];
      assert ps[..|front|] == front;
      forall i | 0 <= i < |front| ensures Records.Less(front[i].0, last) {
        assert front[i].0 in rest;
        Records.LessTotal(front[i].0, last);
      }
      assert rest[last := m[last]] == m;
    }
  }

  lemma {:induction false} Greatest(s: set<Text>) returns (x: Text)
    requires s != {}
    ensures x in s && forall y :: y in s ==> !Records.Less(x, y)
    decreases s
  {
    var z :| z in s;
    Records.LessIrreflexive(z);
    if s == {z} {
      x := z;
    } else {
      var r := Greatest(s - {z});
      x := if Records.Less(r, z) then z else r;
      forall y | y in s ensures !Records.Less(x, y) {
        Records.LessTotal(r, z);
        if y != z && x == z && Records.Less(z, y) { Records.LessTransitive(r, z, y); }
      }
    }
  }
}
