/** Keys, entries, and strictly sorted lists of records: what a std::map of entries holds, in the
    order it is walked. Keys compare as std::string_view does, character by character. */
module Records {
  import opened Basics

  type Key = Text

  datatype Entry = Entry(value: Text, seqno: nat, deleted: bool)

  datatype Record = Record(key: Key, entry: Entry)

  // ------------------------------------------------------------------ key order

  predicate Less(a: Key, b: Key) {
    if |b| == 0 then false
    else if |a| == 0 then true
    else if a[0] != b[0] then a[0] < b[0]
    else Less(a[1..], b[1..])
  }

  predicate AtMost(a: Key, b: Key) {
    !Less(b, a)
  }

  lemma {:induction false} LessIrreflexive(a: Key)
    ensures !Less(a, a)
  {
    if |a| > 0 { LessIrreflexive(a[1..]); }
  }

  lemma {:induction false} LessTransitive(a: Key, b: Key, c: Key)
    requires Less(a, b) && Less(b, c)
    ensures Less(a, c)
  {
    if |a| > 0 && a[0] == b[0] == c[0] { LessTransitive(a[1..], b[1..], c[1..]); }
  }

  /** Exactly one of before, equal, after. */
  lemma {:induction false} LessTotal(a: Key, b: Key)
    ensures Less(a, b) || a == b || Less(b, a)
    ensures !(Less(a, b) && Less(b, a))
  {
    if |a| > 0 && |b| > 0 && a[0] == b[0] {
      LessTotal(a[1..], b[1..]);
      assert a == [a[0]] + a[1..] && b == [b[0]] + b[1..];
    }
  }

  lemma AtMostTransitive(a: Key, b: Key, c: Key)
    requires AtMost(a, b) && AtMost(b, c)
    ensures AtMost(a, c)
  {
    LessTotal(a, b);
    LessTotal(b, c);
    LessTotal(a, c);
    if Less(c, a) {
      if Less(a, b) { LessTransitive(c, a, b); }
    }
  }

  lemma LessAtMost(a: Key, b: Key, c: Key)
    ensures Less(a, b) && AtMost(b, c) ==> Less(a, c)
    ensures AtMost(a, b) && Less(b, c) ==> Less(a, c)
    ensures Less(a, b) ==> AtMost(a, b) && a != b
    ensures AtMost(a, b) && AtMost(b, a) ==> a == b
  {
    LessTotal(a, b);
    LessTotal(b, c);
    LessTotal(a, c);
    LessIrreflexive(a);
    if Less(a, b) && Less(b, c) { LessTransitive(a, b, c); }
  }

  // -------------------------------------------------------------- sorted records

  ghost predicate Sorted(s: seq<Record>) {
    forall i, j :: 0 <= i < j < |s| ==> Less(s[i].key, s[j].key)
  }

  function Find(s: seq<Record>, k: Key): Option<Entry> {
    if |s| == 0 then None else if s[0].key == k then Some(s[0].entry) else Find(s[1..], k)
  }

  function Upsert(s: seq<Record>, k: Key, e: Entry): seq<Record> {
    if |s| == 0 || Less(k, s[0].key) then [Record(k, e)] + s
    else if s[0].key == k then [Record(k, e)] + s[1..]
    else [s[0]] + Upsert(s[1..], k, e)
  }

  lemma {:induction false} FindSome(s: seq<Record>, k: Key) returns (i: nat)
    requires Find(s, k).Some?
    ensures i < |s| && s[i].key == k && s[i].entry == Find(s, k).value
  {
    if s[0].key == k {
      i := 0;
    } else {
      var j := FindSome(s[1..], k);
      i := j + 1;
    }
  }

  lemma {:induction false} FindAt(s: seq<Record>, i: nat)
    requires Sorted(s) && i < |s|
    ensures Find(s, s[i].key) == Some(s[i].entry)
  {
    if i > 0 {
      LessIrreflexive(s[i].key);
      assert Less(s[0].key, s[i].key);
      FindAt(s[1..], i - 1);
    }
  }

  lemma {:induction false} FindSplit(a: seq<Record>, b: seq<Record>, k: Key)
    ensures Find(a + b, k) == if Find(a, k).Some? then Find(a, k) else Find(b, k)
  {
    if |a| == 0 {
      assert a + b == b;
    } else {
      assert (a + b)[1..] == a[1..] + b;
      FindSplit(a[1..], b, k);
    }
  }

  lemma {:induction false} UpsertFind(s: seq<Record>, k: Key, e: Entry, q: Key)
    requires Sorted(s)
    ensures Find(Upsert(s, k, e), q) == if q == k then Some(e) else Find(s, q)
  {
    if |s| == 0 || Less(k, s[0].key) {
      assert ([Record(k, e)] + s)[1..] == s;
    } else if s[0].key == k {
      assert ([Record(k, e)] + s[1..])[1..] == s[1..];
    } else {
      assert ([s[0]] + Upsert(s[1..], k, e))[1..] == Upsert(s[1..], k, e);
      UpsertFind(s[1..], k, e, q);
    }
  }

  lemma {:induction false} UpsertMembers(s: seq<Record>, k: Key, e: Entry, r: Record)
    requires r in Upsert(s, k, e)
    ensures r == Record(k, e) || r in s
  {
    if |s| > 0 && !Less(k, s[0].key) && s[0].key != k {
      if r != s[0] { UpsertMembers(s[1..], k, e, r); }
    }
  }

  lemma {:induction false} UpsertSorted(s: seq<Record>, k: Key, e: Entry)
    requires Sorted(s)
    ensures Sorted(Upsert(s, k, e))
  {
    if |s| == 0 {
    } else if Less(k, s[0].key) {
      var r := [Record(k, e)] + s;
      forall j | 1 <= j < |r| ensures Less(k, r[j].key) {
        if j > 1 { LessTransitive(k, s[0].key, s[j - 1].key); }
      }
    } else if s[0].key == k {
    } else {
      LessTotal(k, s[0].key);
      UpsertSorted(s[1..], k, e);
      var t := Upsert(s[1..], k, e);
      forall j | 0 <= j < |t| ensures Less(s[0].key, t[j].key) { UpsertMembers(s[1..], k, e, t[j]); }
    }
  }

  lemma {:induction false} FindAbsent(s: seq<Record>, k: Key)
    requires forall i :: 0 <= i < |s| ==> s[i].key != k
    ensures Find(s, k) == None
  {
    if |s| > 0 { FindAbsent(s[1..], k); }
  }

  // ---------------------------------------------------------- what a reader sees

  /** The value of an entry, unless there is none or it is a tombstone. */
  function Visible(e: Option<Entry>): Option<Text> {
    if e.Some? && !e.value.deleted then Some(e.value.value) else None
  }

  function At(m: map<Key, Text>, k: Key): Option<Text> {
    if k in m then Some(m[k]) else None
  }
}
