/** Orders on tables, the level-1 range check, and the choice of compaction inputs. */
module Selection {
  import opened Records
  import opened Tables
  import opened Directories

  // ------------------------------------------------------------ sets of tables

  ghost predicate UniqueIds(ts: seq<Table>) {
    forall i, j :: 0 <= i < j < |ts| ==> ts[i].id != ts[j].id
  }

  ghost predicate SameTables(a: seq<Table>, b: seq<Table>) {
    UniqueIds(a) && UniqueIds(b) && forall t :: t in a <==> t in b
  }

  lemma SameHeld(a: seq<Table>, b: seq<Table>, k: Key, e: Entry)
    requires forall t :: t in a ==> t in b
    requires Held(a, k, e)
    ensures Held(b, k, e)
  {
    var i :| HeldAt(a, i, k, e);
    assert a[i] in a;
    var j :| 0 <= j < |b| && b[j] == a[i];
    assert HeldAt(b, j, k, e);
  }

  lemma SameDistinct(a: seq<Table>, b: seq<Table>)
    requires SameTables(a, b) && Distinct(a)
    ensures Distinct(b)
  {
    forall i, j, k, x, y | i != j && HeldAt(b, i, k, x) && HeldAt(b, j, k, y) ensures x.seqno != y.seqno {
      assert b[i] in a && b[j] in a;
      var p :| 0 <= p < |a| && a[p] == b[i];
      var q :| 0 <= q < |a| && a[q] == b[j];
      assert HeldAt(a, p, k, x) && HeldAt(a, q, k, y);
      assert b[i].id != b[j].id;
    }
  }

  /** Every query on a set of tables ignores their order. */
  lemma SameNewest(a: seq<Table>, b: seq<Table>, k: Key)
    requires SameTables(a, b) && Distinct(a)
    ensures Newest(a, k) == Newest(b, k)
  {
    SameDistinct(a, b);
    forall e ensures Held(a, k, e) <==> Held(b, k, e) {
      if Held(a, k, e) { SameHeld(a, b, k, e); }
      if Held(b, k, e) { SameHeld(b, a, k, e); }
    }
    NewestSame(a, b, k);
  }

  lemma SameGood(a: seq<Table>, b: seq<Table>)
    requires SameTables(a, b) && AllGood(a)
    ensures AllGood(b)
  {
    forall i | 0 <= i < |b| ensures Good(b[i]) {
      assert b[i] in a;
      var j :| 0 <= j < |a| && a[j] == b[i];
    }
  }

  // ------------------------------------------------------------------- sorting

  function InsertBy(t: Table, s: seq<Table>, before: (Table, Table) -> bool): seq<Table> {
    if |s| == 0 || !before(s[0], t) then [t] + s else [s[0]] + InsertBy(t, s[1..], before)
  }

  function SortBy(ts: seq<Table>, before: (Table, Table) -> bool): seq<Table> {
    if |ts| == 0 then [] else InsertBy(ts[0], SortBy(ts[1..], before), before)
  }

  lemma {:induction false} InsertMembers(t: Table, s: seq<Table>, before: (Table, Table) -> bool, x: Table)
    ensures x in InsertBy(t, s, before) <==> x == t || x in s
  {
    if |s| > 0 && before(s[0], t) {
      InsertMembers(t, s[1..], before, x);
      assert s == [s[0]] + s[1..];
    }
  }

  lemma {:induction false} InsertUnique(t: Table, s: seq<Table>, before: (Table, Table) -> bool)
    requires UniqueIds(s) && forall i :: 0 <= i < |s| ==> s[i].id != t.id
    ensures UniqueIds(InsertBy(t, s, before))
  {
    if |s| > 0 && before(s[0], t) {
      InsertUnique(t, s[1..], before);
      var r := InsertBy(t, s[1..], before);
      forall i | 0 <= i < |r| ensures r[i].id != s[0].id {
        InsertMembers(t, s[1..], before, r[i]);
      }
    }
  }

  lemma {:induction false} SortIsSame(ts: seq<Table>, before: (Table, Table) -> bool)
    requires UniqueIds(ts)
    ensures SameTables(ts, SortBy(ts, before))
  {
    if |ts| > 0 {
      var r := SortBy(ts[1..], before);
      SortIsSame(ts[1..], before);
      forall i | 0 <= i < |r| ensures r[i].id != ts[0].id {
        assert r[i] in ts[1..];
        var j :| 0 <= j < |ts[1..]| && ts[1..][j] == r[i];
      }
      InsertUnique(ts[0], r, before);
      forall x ensures x in ts <==> x in SortBy(ts, before) {
        InsertMembers(ts[0], r, before, x);
        assert ts == [ts[0]] + ts[1..];
      }
    }
  }

  /** Newest number first, then newest generation, then file name. */
  predicate NewerFirst(a: Table, b: Table) {
    var x, y := MaxSeq(a.records), MaxSeq(b.records);
    if x != y then x > y else if a.generation != b.generation then a.generation > b.generation else a.id > b.id
  }

  predicate OlderFirst(a: Table, b: Table) {
    var x, y := MaxSeq(a.records), MaxSeq(b.records);
    if x != y then x < y else a.generation < b.generation
  }

  predicate KeyFirst(a: Table, b: Table) {
    |a.records| > 0 && |b.records| > 0 && Less(Smallest(a), Smallest(b))
  }

  /** The order readers are kept in. */
  ghost predicate Ordered(ts: seq<Table>) {
    forall i, j :: 0 <= i < j < |ts| ==> !NewerFirst(ts[j], ts[i])
  }

  lemma {:induction false} InsertOrdered(t: Table, s: seq<Table>)
    requires Ordered(s)
    ensures Ordered(InsertBy(t, s, NewerFirst))
  {
    hide MaxSeq;
    if |s| > 0 {
      if NewerFirst(s[0], t) {
        InsertOrdered(t, s[1..]);
        var r := InsertBy(t, s[1..], NewerFirst);
        forall j | 0 <= j < |r| ensures !NewerFirst(r[j], s[0]) { InsertMembers(t, s[1..], NewerFirst, r[j]); }
      } else {
        forall j | 0 <= j < |s| ensures !NewerFirst(s[j], t) {
          if j > 0 { assert !NewerFirst(s[j], s[0]); }
        }
      }
    }
  }

  lemma {:induction false} SortOrdered(ts: seq<Table>)
    ensures Ordered(SortBy(ts, NewerFirst))
  {
    if |ts| > 0 {
      SortOrdered(ts[1..]);
      InsertOrdered(ts[0], SortBy(ts[1..], NewerFirst));
    }
  }

  /** Sorting what is in order leaves it alone, so a reload keeps the published order. */
  lemma {:induction false} SortAgain(ts: seq<Table>)
    requires Ordered(ts)
    ensures SortBy(ts, NewerFirst) == ts
  {
    if |ts| > 0 { SortAgain(ts[1..]); }
  }

  // ------------------------------------------------------------ level-1 ranges

  ghost predicate Apart(a: Table, b: Table)
    requires |a.records| > 0 && |b.records| > 0
  {
    !Overlap(Smallest(a), Largest(a), Smallest(b), Largest(b))
  }

  ghost predicate Disjoint1(ts: seq<Table>)
    requires AllGood(ts)
  {
    forall i, j :: 0 <= i < j < |ts| && ts[i].level == Level1 && ts[j].level == Level1 ==> Apart(ts[i], ts[j])
  }

  lemma SameDisjoint(a: seq<Table>, b: seq<Table>)
    requires SameTables(a, b) && AllGood(a) && AllGood(b) && Disjoint1(a)
    ensures Disjoint1(b)
  {
    forall i, j | 0 <= i < j < |b| && b[i].level == Level1 && b[j].level == Level1 ensures Apart(b[i], b[j]) {
      assert b[i] in a && b[j] in a;
      var p :| 0 <= p < |a| && a[p] == b[i];
      var q :| 0 <= q < |a| && a[q] == b[j];
      assert Apart(a[if p < q then p else q], a[if p < q then q else p]);
    }
  }

  ghost predicate Ascending(ts: seq<Table>) {
    forall i, j :: 0 <= i < j < |ts| ==> !KeyFirst(ts[j], ts[i])
  }

  lemma {:induction false} InsertAscending(t: Table, s: seq<Table>)
    requires Ascending(s) && AllGood(s) && Good(t)
    ensures Ascending(InsertBy(t, s, KeyFirst))
  {
    if |s| > 0 {
      if KeyFirst(s[0], t) {
        InsertAscending(t, s[1..]);
        var r := InsertBy(t, s[1..], KeyFirst);
        forall j | 0 <= j < |r| ensures !KeyFirst(r[j], s[0]) {
          InsertMembers(t, s[1..], KeyFirst, r[j]);
          LessTotal(Smallest(s[0]), Smallest(t));
        }
      } else {
        forall j | 0 <= j < |s| ensures !KeyFirst(s[j], t) {
          if j > 0 { AtMostTransitive(Smallest(t), Smallest(s[0]), Smallest(s[j])); }
        }
      }
    }
  }

  lemma {:induction false} SortAscending(ts: seq<Table>)
    requires AllGood(ts)
    ensures Ascending(SortBy(ts, KeyFirst)) && AllGood(SortBy(ts, KeyFirst))
  {
    if |ts| > 0 {
      SortAscending(ts[1..]);
      InsertAscending(ts[0], SortBy(ts[1..], KeyFirst));
      var r := SortBy(ts, KeyFirst);
      forall i | 0 <= i < |r| ensures Good(r[i]) { InsertMembers(ts[0], SortBy(ts[1..], KeyFirst), KeyFirst, r[i]); }
    }
  }

  /** In order of smallest key, neighbours apart means all apart. */
  lemma {:induction false} ChainApart(s: seq<Table>, i: nat, j: nat)
    requires AllGood(s) && i < j < |s|
    requires forall k :: 1 <= k <= j ==> Less(Largest(s[k - 1]), Smallest(s[k]))
    ensures Less(Largest(s[i]), Smallest(s[j]))
    decreases j
  {
    if i + 1 < j {
      ChainApart(s, i, j - 1);
      KeyInRange(s[j - 1], 0);
      LessAtMost(Largest(s[i]), Smallest(s[j - 1]), Largest(s[j - 1]));
      LessTransitive(Largest(s[i]), Largest(s[j - 1]), Smallest(s[j]));
    } else {
      assert Less(Largest(s[j - 1]), Smallest(s[j]));
    }
  }

  /** The tables of one level, in the order they are listed. */
  function OfLevel(ts: seq<Table>, l: Level): seq<Table> {
    if |ts| == 0 then []
    else OfLevel(ts[..|ts| - 1], l) + (if ts[|ts| - 1].level == l then [ts[|ts| - 1]] else [])
  }

  lemma {:induction false} OfLevelMembers(ts: seq<Table>, l: Level)
    ensures forall t :: t in OfLevel(ts, l) <==> t in ts && t.level == l
    ensures UniqueIds(ts) ==> UniqueIds(OfLevel(ts, l))
    ensures |OfLevel(ts, l)| <= |ts|
  {
    if |ts| > 0 {
      var n := |ts| - 1;
      OfLevelMembers(ts[..n], l);
      assert ts == ts[..n] + [ts[n]];
      if UniqueIds(ts) {
        var r := OfLevel(ts[..n], l);
        forall i | 0 <= i < |r| ensures r[i].id != ts[n].id {
          assert r[i] in ts[..n];
        }
      }
    }
  }

  method CollectLevel(ts: seq<Table>, l: Level) returns (r: seq<Table>)
    ensures r == OfLevel(ts, l)
  {
    r := [];
    var i := 0;
    while i < |ts|
      invariant 0 <= i <= |ts| && r == OfLevel(ts[..i], l)
    {
      assert ts[..i + 1][..i] == ts[..i];
      if ts[i].level == l {
        r := r + [ts[i]];
      }
      i := i + 1;
    }
    assert ts[..i] == ts;
  }

  /** The check made before every publication accepts exactly the disjoint level-1 sets. */
  method ValidateLevel1(ts: seq<Table>) returns (ok: bool)
    requires AllGood(ts) && UniqueIds(ts)
    ensures ok <==> Disjoint1(ts)
  {
    var level1 := CollectLevel(ts, Level1);
    OfLevelMembers(ts, Level1);
    var s := SortBy(level1, KeyFirst);
    Level1Good(ts);
    SortAscending(level1);
    SortIsSame(level1, KeyFirst);
    var i := 1;
    while i < |s|
      invariant 1 <= i && (|s| > 0 ==> i <= |s|)
      invariant forall k :: 1 <= k < i && k < |s| ==> Less(Largest(s[k - 1]), Smallest(s[k]))
    {
      if AtMost(s[i].records[0].key, Largest(s[i - 1])) {
        NeighboursMeet(ts, s, i);
        return false;
      }
      i := i + 1;
    }
    AllApart(ts, s);
    ok := true;
  }

  lemma Level1Good(ts: seq<Table>)
    requires AllGood(ts)
    ensures AllGood(OfLevel(ts, Level1))
  {
    OfLevelMembers(ts, Level1);
    var r := OfLevel(ts, Level1);
    forall i | 0 <= i < |r| ensures Good(r[i]) {
      assert r[i] in ts;
    }
  }

  lemma NeighboursMeet(ts: seq<Table>, s: seq<Table>, i: nat)
    requires AllGood(ts) && UniqueIds(ts) && AllGood(s) && UniqueIds(s) && Ascending(s) && 1 <= i < |s|
    requires forall t :: t in s ==> t in ts && t.level == Level1
    requires AtMost(Smallest(s[i]), Largest(s[i - 1]))
    ensures !Disjoint1(ts)
  {
    assert s[i - 1] in ts && s[i] in ts;
    var p :| 0 <= p < |ts| && ts[p] == s[i - 1];
    var q :| 0 <= q < |ts| && ts[q] == s[i];
    assert !KeyFirst(s[i], s[i - 1]);
    KeyInRange(s[i], 0);
    AtMostTransitive(Smallest(s[i - 1]), Smallest(s[i]), Largest(s[i]));
    assert !Apart(s[i - 1], s[i]) && !Apart(s[i], s[i - 1]);
    assert s[i - 1].id != s[i].id;
  }

  lemma AllApart(ts: seq<Table>, s: seq<Table>)
    requires AllGood(ts) && UniqueIds(ts) && AllGood(s) && UniqueIds(s)
    requires forall t :: t in ts && t.level == Level1 ==> t in s
    requires forall k :: 1 <= k < |s| ==> Less(Largest(s[k - 1]), Smallest(s[k]))
    ensures Disjoint1(ts)
  {
    forall i, j | 0 <= i < j < |ts| && ts[i].level == Level1 && ts[j].level == Level1 ensures Apart(ts[i], ts[j]) {
      assert ts[i] in ts && ts[j] in ts;
      var p :| 0 <= p < |s| && s[p] == ts[i];
      var q :| 0 <= q < |s| && s[q] == ts[j];
      assert ts[i].id != ts[j].id;
      ChainApart(s, if p < q then p else q, if p < q then q else p);
    }
  }

  // ----------------------------------------------------------- compaction inputs

  ghost predicate Within(t: Table, lo: Key, hi: Key)
    requires |t.records| > 0
  {
    AtMost(lo, Smallest(t)) && AtMost(Largest(t), hi)
  }

  predicate Touches(t: Table, lo: Key, hi: Key)
    requires |t.records| > 0
  {
    Overlap(lo, hi, Smallest(t), Largest(t))
  }

  /** A key range that contains the base tables and every level-1 table it touches. */
  ghost predicate ClosedRange(ts: seq<Table>, base: seq<Table>, lo: Key, hi: Key)
    requires AllGood(ts) && AllGood(base)
  {
    && (forall i :: 0 <= i < |base| ==> Within(base[i], lo, hi))
    && (forall i :: 0 <= i < |ts| && ts[i].level == Level1 && Touches(ts[i], lo, hi) ==> Within(ts[i], lo, hi))
  }

  /** The level-0 tables a compaction starts from: the oldest few, or all when forced. */
  function Base(ts: seq<Table>, trigger: nat, maxTables: nat, force: bool): seq<Table> {
    var level0 := OfLevel(ts, Level0);
    if |level0| == 0 || (!force && |level0| < trigger) then []
    else
      var s := SortBy(level0, OlderFirst);
      if force || |s| <= maxTables then s else s[..maxTables]
  }

  /** What the choice of inputs guarantees: the base, and exactly the level-1 tables that touch
      the least range closed over it. */
  ghost predicate Chosen(ts: seq<Table>, base: seq<Table>, selected: seq<Table>, unselected: seq<Table>, lo: Key, hi: Key)
    requires AllGood(ts) && AllGood(base)
  {
    && ClosedRange(ts, base, lo, hi)
    && (forall a, b :: ClosedRange(ts, base, a, b) ==> AtMost(a, lo) && AtMost(hi, b))
    && (forall t :: t in selected <==> t in base || (t in ts && t.level == Level1 && Touches(t, lo, hi)))
    && SameTables(ts, selected + unselected)
  }

  lemma BaseFacts(ts: seq<Table>, trigger: nat, maxTables: nat, force: bool)
    requires AllGood(ts) && UniqueIds(ts)
    ensures var b := Base(ts, trigger, maxTables, force);
            UniqueIds(b) && AllGood(b) && forall t :: t in b ==> t in ts && t.level == Level0
  {
    var level0 := OfLevel(ts, Level0);
    OfLevelMembers(ts, Level0);
    SortIsSame(level0, OlderFirst);
    var b := Base(ts, trigger, maxTables, force);
    forall i | 0 <= i < |b| ensures Good(b[i]) && b[i] in ts && b[i].level == Level0 {
      assert b[i] in SortBy(level0, OlderFirst);
    }
  }

  /** The order in which level-0 tables are taken: by greatest number, then by generation. */
  predicate NoYounger(a: Table, b: Table) {
    MaxSeq(a.records) < MaxSeq(b.records) || (MaxSeq(a.records) == MaxSeq(b.records) && a.generation <= b.generation)
  }

  ghost predicate OldestFirst(s: seq<Table>) {
    forall i, j :: 0 <= i < j < |s| ==> NoYounger(s[i], s[j])
  }

  lemma {:induction false} InsertOldest(t: Table, s: seq<Table>)
    requires OldestFirst(s)
    ensures OldestFirst(InsertBy(t, s, OlderFirst)) && |InsertBy(t, s, OlderFirst)| == |s| + 1
  {
    hide MaxSeq;
    if |s| > 0 && OlderFirst(s[0], t) {
      var r := InsertBy(t, s[1..], OlderFirst);
      InsertOldest(t, s[1..]);
      forall i | 0 <= i < |r| ensures NoYounger(s[0], r[i]) {
        InsertMembers(t, s[1..], OlderFirst, r[i]);
        if r[i] != t { var j :| 0 <= j < |s[1..]| && s[1..][j] == r[i]; }
      }
    }
  }

  lemma {:induction false} SortOldest(ts: seq<Table>)
    ensures OldestFirst(SortBy(ts, OlderFirst)) && |SortBy(ts, OlderFirst)| == |ts|
  {
    if |ts| > 0 {
      SortOldest(ts[1..]);
      InsertOldest(ts[0], SortBy(ts[1..], OlderFirst));
    }
  }

  lemma {:induction false} NoneOfLevel(ts: seq<Table>, l: Level)
    requires forall t :: t in ts ==> t.level != l
    ensures OfLevel(ts, l) == []
  {
    if |ts| > 0 { NoneOfLevel(ts[..|ts| - 1], l); }
  }

  /** What a compaction starts from: nothing while level 0 is empty or, unforced, below the trigger;
      all of level 0 when forced; and otherwise as many of its oldest tables as the limit lets. */
  lemma BaseExact(ts: seq<Table>, trigger: nat, maxTables: nat, force: bool)
    requires UniqueIds(ts)
    ensures var b, n := Base(ts, trigger, maxTables, force), |OfLevel(ts, Level0)|;
            && |b| == (if !force && n < trigger then 0 else if force || n <= maxTables then n else maxTables)
            && (forall t :: t in b ==> t in ts && t.level == Level0)
            && (|b| == n ==> forall t :: t in ts && t.level == Level0 ==> t in b)
            && (|b| > 0 ==> forall t, u :: t in b && u in ts && u.level == Level0 && u !in b ==> NoYounger(t, u))
  {
    var level0, b := OfLevel(ts, Level0), Base(ts, trigger, maxTables, force);
    var s := SortBy(level0, OlderFirst);
    OfLevelMembers(ts, Level0);
    SortIsSame(level0, OlderFirst);
    SortOldest(level0);
    forall t, u | |b| > 0 && t in b && u in ts && u.level == Level0 && u !in b ensures NoYounger(t, u) {
      assert t in s && u in s;
      var i :| 0 <= i < |b| && b[i] == t;
      var j :| 0 <= j < |s| && s[j] == u;
      assert j >= |b|;
    }
  }

  function MinKey(a: Key, b: Key): Key { if Less(b, a) then b else a }

  function MaxKey(a: Key, b: Key): Key { if Less(a, b) then b else a }

  lemma MinMax(a: Key, b: Key)
    ensures AtMost(MinKey(a, b), a) && AtMost(MinKey(a, b), b) && AtMost(a, MaxKey(a, b)) && AtMost(b, MaxKey(a, b))
  {
    LessTotal(a, b);
    LessIrreflexive(a);
    LessIrreflexive(b);
  }

  /** Widening a range keeps what it contained. */
  lemma Widened(t: Table, lo: Key, hi: Key, lo': Key, hi': Key)
    requires |t.records| > 0 && Within(t, lo, hi) && AtMost(lo', lo) && AtMost(hi, hi')
    ensures Within(t, lo', hi')
  {
    AtMostTransitive(lo', lo, Smallest(t));
    AtMostTransitive(Largest(t), hi, hi');
  }

  lemma StillTouches(t: Table, lo: Key, hi: Key, lo': Key, hi': Key)
    requires |t.records| > 0 && Touches(t, lo, hi) && AtMost(lo', lo) && AtMost(hi, hi')
    ensures Touches(t, lo', hi')
  {
    AtMostTransitive(lo', lo, Largest(t));
    AtMostTransitive(Smallest(t), hi, hi');
  }

  ghost predicate Bounded(ts: seq<Table>, base: seq<Table>, lo: Key, hi: Key)
    requires AllGood(ts) && AllGood(base)
  {
    forall a, b :: ClosedRange(ts, base, a, b) ==> AtMost(a, lo) && AtMost(hi, b)
  }

  /** The range of the base tables alone. */
  method RangeOf(base: seq<Table>, ghost ts: seq<Table>) returns (lo: Key, hi: Key)
    requires AllGood(base) && |base| > 0 && AllGood(ts)
    ensures (forall i :: 0 <= i < |base| ==> Within(base[i], lo, hi)) && Bounded(ts, base, lo, hi) && AtMost(lo, hi)
  {
    lo, hi := Smallest(base[0]), Largest(base[0]);
    KeyInRange(base[0], 0);
    LessIrreflexive(lo);
    LessIrreflexive(hi);
    var i := 0;
    while i < |base|
      invariant 0 <= i <= |base| && AtMost(lo, hi)
      invariant forall j :: 0 <= j < i ==> Within(base[j], lo, hi)
      invariant Bounded(ts, base, lo, hi)
    {
      var lo', hi' := MinKey(lo, Smallest(base[i])), MaxKey(hi, Largest(base[i]));
      MinMax(lo, Smallest(base[i]));
      MinMax(hi, Largest(base[i]));
      forall j | 0 <= j < i ensures Within(base[j], lo', hi') { Widened(base[j], lo, hi, lo', hi'); }
      AtMostTransitive(lo', lo, hi);
      AtMostTransitive(lo', hi, hi');
      forall a, b | ClosedRange(ts, base, a, b) ensures AtMost(a, lo') && AtMost(hi', b) { assert Within(base[i], a, b); }
      lo, hi := lo', hi';
      i := i + 1;
    }
  }

  /** Where the expansion stands: the selected are the base and some level-1 tables, all inside
      the range, and no closed range is smaller than it. */
  ghost predicate Expanding(ts: seq<Table>, base: seq<Table>, selected: seq<Table>, lo: Key, hi: Key) {
    && AllGood(ts) && AllGood(base) && AllGood(selected) && UniqueIds(selected)
    && AtMost(lo, hi) && Bounded(ts, base, lo, hi)
    && (forall t :: t in base ==> t in selected)
    && (forall t :: t in selected ==> t in base || (t in ts && t.level == Level1))
    && (forall i :: 0 <= i < |selected| ==> Within(selected[i], lo, hi))
  }

  predicate HasId(ts: seq<Table>, id: nat) {
    exists i :: 0 <= i < |ts| && ts[i].id == id
  }

  lemma ExpandOne(ts: seq<Table>, base: seq<Table>, selected: seq<Table>, lo: Key, hi: Key, t: Table)
    requires Expanding(ts, base, selected, lo, hi) && t in ts && t.level == Level1 && Good(t)
    requires !HasId(selected, t.id) && Touches(t, lo, hi)
    ensures Expanding(ts, base, selected + [t], MinKey(lo, Smallest(t)), MaxKey(hi, Largest(t)))
  {
    var lo', hi', s' := MinKey(lo, Smallest(t)), MaxKey(hi, Largest(t)), selected + [t];
    MinMax(lo, Smallest(t));
    MinMax(hi, Largest(t));
    AtMostTransitive(lo', lo, hi);
    AtMostTransitive(lo', hi, hi');
    forall i | 0 <= i < |s'| ensures Within(s'[i], lo', hi') {
      if i < |selected| { Widened(selected[i], lo, hi, lo', hi'); }
    }
    forall a, b | ClosedRange(ts, base, a, b) ensures AtMost(a, lo') && AtMost(hi', b) {
      StillTouches(t, lo, hi, a, b);
      var i :| 0 <= i < |ts| && ts[i] == t;
      assert Within(ts[i], a, b);
    }
    forall i, j | 0 <= i < j < |s'| ensures s'[i].id != s'[j].id {
      if j == |selected| { assert selected[i].id != t.id; }
    }
  }

  /** One pass over the readers. */
  method ExpandOnce(ts: seq<Table>, ghost base: seq<Table>, selected: seq<Table>, lo: Key, hi: Key)
    returns (s: seq<Table>, lo': Key, hi': Key, expanded: bool)
    requires Expanding(ts, base, selected, lo, hi)
    ensures Expanding(ts, base, s, lo', hi') && |s| >= |selected|
    ensures expanded ==> |s| > |selected|
    ensures !expanded ==> forall i :: 0 <= i < |ts| && ts[i].level == Level1 && !HasId(s, ts[i].id) ==> !Touches(ts[i], lo', hi')
  {
    hide Bounded, UniqueIds, Less, Sorted;
    s, lo', hi', expanded := selected, lo, hi, false;
    var i := 0;
    while i < |ts|
      invariant 0 <= i <= |ts| && Expanding(ts, base, s, lo', hi') && |s| >= |selected|
      invariant expanded ==> |s| > |selected|
      invariant !expanded ==> forall j :: 0 <= j < i && ts[j].level == Level1 && !HasId(s, ts[j].id) ==> !Touches(ts[j], lo', hi')
    {
      if ts[i].level == Level1 && !HasId(s, ts[i].id) && Touches(ts[i], lo', hi') {
        ExpandOne(ts, base, s, lo', hi', ts[i]);
        s, lo', hi' := s + [ts[i]], MinKey(lo', Smallest(ts[i])), MaxKey(hi', Largest(ts[i]));
        expanded := true;
      }
      i := i + 1;
    }
  }

  lemma {:induction false} FewerThan(ts: seq<Table>, s: seq<Table>)
    requires UniqueIds(s) && forall t :: t in s ==> t in ts
    ensures |s| <= |ts|
    decreases |ts|
  {
    if |s| > 0 {
      var t := s[|s| - 1];
      assert t in s;
      var i :| 0 <= i < |ts| && ts[i] == t;
      var rest, s' := ts[..i] + ts[i + 1..], s[..|s| - 1];
      forall x | x in s' ensures x in rest {
        assert x in s && x in ts;
        var p :| 0 <= p < |s'| && s'[p] == x;
        assert s[p].id != s[|s| - 1].id;
        var j :| 0 <= j < |ts| && ts[j] == x;
        if j < i { assert rest[j] == x; } else { assert rest[j - 1] == x; }
      }
      FewerThan(rest, s');
    }
  }

  /** The expansion loop: it ends, at the least closed range. */
  method Expand(ts: seq<Table>, base: seq<Table>) returns (selected: seq<Table>, lo: Key, hi: Key)
    requires AllGood(ts) && UniqueIds(ts) && AllGood(base) && UniqueIds(base) && |base| > 0
    requires forall t :: t in base ==> t in ts && t.level == Level0
    ensures Expanding(ts, base, selected, lo, hi)
    ensures forall i :: 0 <= i < |ts| && ts[i].level == Level1 && !HasId(selected, ts[i].id) ==> !Touches(ts[i], lo, hi)
  {
    selected := base;
    FewerThan(ts, base);
    lo, hi := RangeOf(base, ts);
    var expanded := true;
    while expanded
      invariant Expanding(ts, base, selected, lo, hi) && |selected| <= |ts| + 1
      invariant !expanded ==> forall i :: 0 <= i < |ts| && ts[i].level == Level1 && !HasId(selected, ts[i].id) ==> !Touches(ts[i], lo, hi)
      decreases |ts| + 1 - |selected|, expanded
    {
      selected, lo, hi, expanded := ExpandOnce(ts, base, selected, lo, hi);
      FewerThan(ts, selected);
    }
  }

  method SelectInputs(ts: seq<Table>, trigger: nat, maxTables: nat, force: bool)
    returns (selected: seq<Table>, unselected: seq<Table>, lo: Key, hi: Key)
    requires AllGood(ts) && UniqueIds(ts) && 2 <= trigger <= maxTables
    ensures |selected| == 0 <==> Base(ts, trigger, maxTables, force) == []
    ensures AllGood(Base(ts, trigger, maxTables, force))
    ensures |selected| > 0 ==> AllGood(selected) && Chosen(ts, Base(ts, trigger, maxTables, force), selected, unselected, lo, hi)
  {
    unselected, lo, hi := [], [], [];
    BaseFacts(ts, trigger, maxTables, force);
    var level0 := CollectLevel(ts, Level0);
    if |level0| == 0 || (!force && |level0| < trigger) {
      return [], [], [], [];
    }
    var sorted := SortBy(level0, OlderFirst);
    var base := if force || |sorted| <= maxTables then sorted else sorted[..maxTables];
    SortNonEmpty(level0);
    selected, lo, hi := Expand(ts, base);
    unselected := Unselected(ts, selected);
    ChosenHolds(ts, base, selected, unselected, lo, hi);
  }

  lemma SortNonEmpty(ts: seq<Table>)
    requires |ts| > 0
    ensures |SortBy(ts, OlderFirst)| > 0
  {
    InsertMembers(ts[0], SortBy(ts[1..], OlderFirst), OlderFirst, ts[0]);
  }

  method Unselected(ts: seq<Table>, selected: seq<Table>) returns (r: seq<Table>)
    requires UniqueIds(ts)
    ensures UniqueIds(r) && forall t :: t in r <==> t in ts && !HasId(selected, t.id)
  {
    r := [];
    var i := 0;
    while i < |ts|
      invariant 0 <= i <= |ts| && UniqueIds(r)
      invariant forall t :: t in r <==> t in ts[..i] && !HasId(selected, t.id)
    {
      assert ts[..i + 1] == ts[..i] + [ts[i]];
      if !HasId(selected, ts[i].id) {
        forall j | 0 <= j < |r| ensures r[j].id != ts[i].id { assert r[j] in ts[..i]; }
        r := r + [ts[i]];
      }
      i := i + 1;
    }
    assert ts[..i] == ts;
  }

  lemma ChosenHolds(ts: seq<Table>, base: seq<Table>, selected: seq<Table>, unselected: seq<Table>, lo: Key, hi: Key)
    requires Expanding(ts, base, selected, lo, hi) && UniqueIds(ts) && UniqueIds(unselected)
    requires forall t :: t in base ==> t in ts && t.level == Level0
    requires forall i :: 0 <= i < |ts| && ts[i].level == Level1 && !HasId(selected, ts[i].id) ==> !Touches(ts[i], lo, hi)
    requires forall t :: t in unselected <==> t in ts && !HasId(selected, t.id)
    ensures Chosen(ts, base, selected, unselected, lo, hi)
  {
    forall t | t in ts && HasId(selected, t.id) ensures t in selected {
      var i :| 0 <= i < |selected| && selected[i].id == t.id;
      assert selected[i] in selected && selected[i] in ts;
      SameId(ts, selected[i], t);
    }
    forall t | t in selected ensures Within(t, lo, hi) && Touches(t, lo, hi) {
      var i :| 0 <= i < |selected| && selected[i] == t;
      KeyInRange(t, 0);
      AtMostTransitive(lo, Smallest(t), Largest(t));
      AtMostTransitive(Smallest(t), Largest(t), hi);
    }
    forall t | t in ts && t.level == Level1 && Touches(t, lo, hi) ensures t in selected {
      var i :| 0 <= i < |ts| && ts[i] == t;
    }
    var all := selected + unselected;
    forall i, j | 0 <= i < j < |all| ensures all[i].id != all[j].id {
      if i < |selected| <= j { assert all[j] in unselected; assert selected[i].id == all[i].id; }
    }
    forall i | 0 <= i < |base| ensures Within(base[i], lo, hi) { assert base[i] in selected; }
  }

  lemma SameId(ts: seq<Table>, a: Table, b: Table)
    requires UniqueIds(ts) && a in ts && b in ts && a.id == b.id
    ensures a == b
  {
    var i :| 0 <= i < |ts| && ts[i] == a;
    var j :| 0 <= j < |ts| && ts[j] == b;
  }
}
