/** The bytes of MANIFEST and CURRENT (src/manifest.cpp). A manifest names its tables by file name. */
module ManifestFile {
  import opened Basics
  import opened Encoding
  import opened Records
  import opened SSTableFormat
  import Checksum

  const MANIFEST_MAGIC: seq<Byte> := [78, 66, 76, 77, 65, 78, 48, 49]
  const CURRENT_MAGIC: seq<Byte> := [78, 66, 76, 67, 85, 82, 48, 49]
  const CURRENT_PREFIX: Text := [77, 65, 78, 73, 70, 69, 83, 84, 45]
  const SLASH: Byte := 47
  const MAX_FILE: nat := 67108864
  const MAX_TABLES: nat := 1048576
  const MAX_NAME: nat := 4096
  const FRONT: nat := 36
  const TABLE_FIXED: nat := 52
  const CURRENT_FRONT: nat := 16

  /** One table as the manifest describes it; level is 0 or 1. */
  datatype Line = Line(level: Byte, generation: nat, count: nat, blocks: nat, minSeq: nat, maxSeq: nat,
                       name: Text, smallest: Key, largest: Key)

  datatype Listing = Listing(generation: nat, nextFileId: nat, lines: seq<Line>)

  // ------------------------------------------------------------------- one table

  predicate SafeName(name: Text) {
    0 < |name| <= MAX_NAME && SLASH !in name
  }

  predicate LineSound(l: Line) {
    && l.level <= 1 && SafeName(l.name) && |l.smallest| > 0 && |l.largest| > 0 && AtMost(l.smallest, l.largest)
    && l.count > 0 && l.blocks > 0 && 0 < l.minSeq <= l.maxSeq
  }

  /** What a line must be to be written and read back. */
  predicate LineFits(l: Line) {
    && LineSound(l) && l.generation < LONG && l.count < LONG && l.blocks < WORD && l.maxSeq < LONG
    && |l.smallest| < WORD && |l.largest| < WORD
  }

  function Fixed(l: Line): (s: seq<Byte>)
    ensures |s| == TABLE_FIXED
  {
    [l.level, 0, 0, 0] + Le(l.generation, 8) + Le(l.count, 8) + Le(l.blocks, 4) + Le(l.minSeq, 8) + Le(l.maxSeq, 8)
    + Le(|l.name|, 4) + Le(|l.smallest|, 4) + Le(|l.largest|, 4)
  }

  function EncodeLine(l: Line): seq<Byte> {
    Fixed(l) + (l.name + (l.smallest + l.largest))
  }

  function TakeSized(s: seq<Byte>, a: nat, b: nat, c: nat): Option<(Line, seq<Byte>)>
    requires |s| >= TABLE_FIXED
  {
    if |s| < TABLE_FIXED + a + b + c then None
    else
      var x, y, z := TABLE_FIXED + a, TABLE_FIXED + a + b, TABLE_FIXED + a + b + c;
      var l := Line(s[0], FromLe(s[4..12]), FromLe(s[12..20]), FromLe(s[20..24]), FromLe(s[24..32]), FromLe(s[32..40]),
                    s[TABLE_FIXED..x], s[x..y], s[y..z]);
      if LineSound(l) then Some((l, s[z..])) else None
  }

  function TakeLine(s: seq<Byte>): Option<(Line, seq<Byte>)> {
    if |s| < TABLE_FIXED || s[1..4] != [0, 0, 0] then None
    else TakeSized(s, FromLe(s[40..44]), FromLe(s[44..48]), FromLe(s[48..52]))
  }

  lemma FixedFields(l: Line, rest: seq<Byte>)
    requires LineFits(l)
    ensures var s := Fixed(l) + rest;
            && s[0] == l.level && s[1..4] == [0, 0, 0] && FromLe(s[4..12]) == l.generation && FromLe(s[12..20]) == l.count
            && FromLe(s[20..24]) == l.blocks && FromLe(s[24..32]) == l.minSeq && FromLe(s[32..40]) == l.maxSeq
            && FromLe(s[40..44]) == |l.name| && FromLe(s[44..48]) == |l.smallest| && FromLe(s[48..52]) == |l.largest|
  {
    hide FromLe, LineSound;
    var s := Fixed(l) + rest;
    Widths();
    NumbersFit(l);
    assert s[4..12] == Le(l.generation, 8) && s[12..20] == Le(l.count, 8) && s[20..24] == Le(l.blocks, 4);
    assert s[24..32] == Le(l.minSeq, 8) && s[32..40] == Le(l.maxSeq, 8) && s[40..44] == Le(|l.name|, 4);
    assert s[44..48] == Le(|l.smallest|, 4) && s[48..52] == Le(|l.largest|, 4);
    LeRoundTrip(l.generation, 8);
    LeRoundTrip(l.count, 8);
    LeRoundTrip(l.blocks, 4);
    LeRoundTrip(l.minSeq, 8);
    LeRoundTrip(l.maxSeq, 8);
    LeRoundTrip(|l.name|, 4);
    LeRoundTrip(|l.smallest|, 4);
    LeRoundTrip(|l.largest|, 4);
  }

  lemma NumbersFit(l: Line)
    requires LineFits(l)
    ensures l.minSeq < LONG && |l.name| < WORD
  {}

  lemma TakeLineOf(l: Line, rest: seq<Byte>)
    requires LineFits(l)
    ensures TakeLine(EncodeLine(l) + rest) == Some((l, rest))
  {
    hide Fixed, FromLe, LineSound;
    var s, body := EncodeLine(l) + rest, l.name + (l.smallest + (l.largest + rest));
    assert s == Fixed(l) + body;
    FixedFields(l, body);
    var a, b, c := |l.name|, |l.smallest|, |l.largest|;
    BodyParts(Fixed(l), l.name, l.smallest, l.largest, rest);
  }

  lemma BodyParts(f: seq<Byte>, a: seq<Byte>, b: seq<Byte>, c: seq<Byte>, rest: seq<Byte>)
    ensures var s := f + (a + (b + (c + rest)));
            var x, y, z := |f| + |a|, |f| + |a| + |b|, |f| + |a| + |b| + |c|;
            s[|f|..x] == a && s[x..y] == b && s[y..z] == c && s[z..] == rest
  {}

  // -------------------------------------------------------------------- the list

  function EncodeLines(ls: seq<Line>): seq<Byte> {
    if |ls| == 0 then [] else EncodeLine(ls[0]) + EncodeLines(ls[1..])
  }

  /** Read n lines; a file name that was there before is refused. */
  function TakeLines(s: seq<Byte>, n: nat, names: set<Text>): Option<(seq<Line>, seq<Byte>)> {
    if n == 0 then Some(([], s))
    else
      match TakeLine(s)
      case None => None
      case Some((l, rest)) =>
        if l.name in names then None
        else
          match TakeLines(rest, n - 1, names + {l.name})
          case None => None
          case Some((ls, rest')) => Some(([l] + ls, rest'))
  }

  ghost predicate NamesDiffer(ls: seq<Line>) {
    forall i, j :: 0 <= i < j < |ls| ==> ls[i].name != ls[j].name
  }

  ghost predicate ListingFits(m: Listing) {
    && 0 < m.generation < LONG && 0 < m.nextFileId < LONG && |m.lines| <= MAX_TABLES
    && NamesDiffer(m.lines) && (forall i :: 0 <= i < |m.lines| ==> LineFits(m.lines[i]))
    && |EncodeManifest(m)| <= MAX_FILE
  }

  function Front(generation: nat, nextFileId: nat, count: nat): (s: seq<Byte>)
    ensures |s| == FRONT
  {
    MANIFEST_MAGIC + Le(VERSION, 2) + Le(0, 2) + Le(generation, 8) + Le(nextFileId, 8) + Le(count, 4) + Le(0, 4)
  }

  function ManifestPayload(m: Listing): seq<Byte> {
    Front(m.generation, m.nextFileId, |m.lines|) + EncodeLines(m.lines)
  }

  function EncodeManifest(m: Listing): seq<Byte> {
    Checked(ManifestPayload(m))
  }

  function ParseManifest(file: seq<Byte>): Option<Listing> {
    if |file| > MAX_FILE then None
    else
      match Payload(file)
      case None => None
      case Some(p) =>
        if |p| < FRONT || p[..8] != MANIFEST_MAGIC || FromLe(p[8..10]) != VERSION || FromLe(p[10..12]) != 0 || FromLe(p[32..36]) != 0 then None
        else if FromLe(p[12..20]) == 0 || FromLe(p[20..28]) == 0 || FromLe(p[28..32]) > MAX_TABLES then None
        else
          match TakeLines(p[FRONT..], FromLe(p[28..32]), {})
          case None => None
          case Some((ls, rest)) => if rest == [] then Some(Listing(FromLe(p[12..20]), FromLe(p[20..28]), ls)) else None
  }

  lemma {:induction false} TakeLinesOf(ls: seq<Line>, names: set<Text>)
    requires NamesDiffer(ls) && (forall i :: 0 <= i < |ls| ==> LineFits(ls[i]) && ls[i].name !in names)
    ensures TakeLines(EncodeLines(ls), |ls|, names) == Some((ls, []))
    decreases |ls|
  {
    hide TakeLine, EncodeLine, LineFits;
    if |ls| > 0 {
      TakeLineOf(ls[0], EncodeLines(ls[1..]));
      TakeLinesOf(ls[1..], names + {ls[0].name});
      assert [ls[0]] + ls[1..] == ls;
    }
  }

  lemma ManifestFront(m: Listing)
    requires 0 < m.generation < LONG && 0 < m.nextFileId < LONG && |m.lines| <= MAX_TABLES
    ensures var p := ManifestPayload(m);
            && |p| >= FRONT && p[..8] == MANIFEST_MAGIC && FromLe(p[8..10]) == VERSION && FromLe(p[10..12]) == 0 && FromLe(p[32..36]) == 0
            && FromLe(p[12..20]) == m.generation && FromLe(p[20..28]) == m.nextFileId && FromLe(p[28..32]) == |m.lines|
            && p[FRONT..] == EncodeLines(m.lines)
  {
    hide EncodeLines, FromLe, Front;
    var p, f := ManifestPayload(m), Front(m.generation, m.nextFileId, |m.lines|);
    FrontFields(m.generation, m.nextFileId, |m.lines|);
    assert p[..8] == f[..8] && p[8..10] == f[8..10] && p[10..12] == f[10..12] && p[12..20] == f[12..20];
    assert p[20..28] == f[20..28] && p[28..32] == f[28..32] && p[32..36] == f[32..36] && p[FRONT..] == EncodeLines(m.lines);
  }

  lemma FrontParts(a: seq<Byte>, b: seq<Byte>, c: seq<Byte>, d: seq<Byte>, e: seq<Byte>, f: seq<Byte>, g: seq<Byte>)
    requires |a| == 8 && |b| == 2 && |c| == 2 && |d| == 8 && |e| == 8 && |f| == 4 && |g| == 4
    ensures var p := a + b + c + d + e + f + g;
            && p[..8] == a && p[8..10] == b && p[10..12] == c && p[12..20] == d && p[20..28] == e && p[28..32] == f && p[32..36] == g
  {}

  lemma FrontFields(generation: nat, nextFileId: nat, count: nat)
    requires generation < LONG && nextFileId < LONG && count < WORD
    ensures var p := Front(generation, nextFileId, count);
            && p[..8] == MANIFEST_MAGIC && FromLe(p[8..10]) == VERSION && FromLe(p[10..12]) == 0 && FromLe(p[32..36]) == 0
            && FromLe(p[12..20]) == generation && FromLe(p[20..28]) == nextFileId && FromLe(p[28..32]) == count
  {
    hide FromLe, Le;
    Widths();
    FrontParts(MANIFEST_MAGIC, Le(VERSION, 2), Le(0, 2), Le(generation, 8), Le(nextFileId, 8), Le(count, 4), Le(0, 4));
    LeRoundTrip(VERSION, 2);
    LeRoundTrip(0, 2);
    LeRoundTrip(generation, 8);
    LeRoundTrip(nextFileId, 8);
    LeRoundTrip(count, 4);
    LeRoundTrip(0, 4);
  }

  /** A manifest parses back to what it lists. */
  lemma ManifestRoundTrip(m: Listing)
    requires ListingFits(m)
    ensures ParseManifest(EncodeManifest(m)) == Some(m)
  {
    hide Payload, Checked, ManifestPayload, TakeLines, EncodeLines, FromLe, LineFits;
    ManifestFront(m);
    PayloadOf(ManifestPayload(m));
    TakeLinesOf(m.lines, {});
  }

  // --------------------------------------------------------------------- CURRENT

  predicate CurrentName(name: Text) {
    SafeName(name) && CURRENT_PREFIX <= name
  }

  function CurrentPayload(name: Text): seq<Byte> {
    CURRENT_MAGIC + Le(VERSION, 2) + Le(0, 2) + Le(|name|, 4) + name
  }

  function EncodeCurrent(name: Text): seq<Byte> {
    Checked(CurrentPayload(name))
  }

  function ParseCurrent(file: seq<Byte>): Option<Text> {
    if |file| > MAX_FILE then None
    else
      match Payload(file)
      case None => None
      case Some(p) =>
        if |p| < CURRENT_FRONT || p[..8] != CURRENT_MAGIC || FromLe(p[8..10]) != VERSION || FromLe(p[10..12]) != 0 then None
        else if FromLe(p[12..16]) != |p| - CURRENT_FRONT || !CurrentName(p[CURRENT_FRONT..]) then None
        else Some(p[CURRENT_FRONT..])
  }

  lemma CurrentRoundTrip(name: Text)
    requires CurrentName(name)
    ensures ParseCurrent(EncodeCurrent(name)) == Some(name)
  {
    hide Payload, Checked, FromLe;
    var p := CurrentPayload(name);
    Widths();
    assert p[..8] == CURRENT_MAGIC && p[8..10] == Le(VERSION, 2) && p[10..12] == Le(0, 2) && p[12..16] == Le(|name|, 4) && p[16..] == name;
    LeRoundTrip(VERSION, 2);
    LeRoundTrip(0, 2);
    LeRoundTrip(|name|, 4);
    CheckedLength(p);
    PayloadOf(p);
  }

  /** Any one altered byte of either file is noticed. */
  lemma AlteredMetadata(m: Listing, name: Text, t: seq<Byte>, i: nat)
    ensures Checksum.OneByteApart(EncodeManifest(m), t, i) ==> ParseManifest(t) == None
    ensures Checksum.OneByteApart(EncodeCurrent(name), t, i) ==> ParseCurrent(t) == None
  {
    hide Payload, Checked, ManifestPayload, CurrentPayload;
    if Checksum.OneByteApart(EncodeManifest(m), t, i) { AlteredChecked(ManifestPayload(m), t, i); }
    if Checksum.OneByteApart(EncodeCurrent(name), t, i) { AlteredChecked(CurrentPayload(name), t, i); }
  }
}
