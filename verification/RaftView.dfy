/** A node keeps a snapshot and the entries after it. `Holds` says which complete log they
    stand for; every query of the node then equals the query on that complete log. */
module RaftView {
  import opened Basics
  import opened RaftTypes
  import opened RaftNode
  import opened RaftCore

  ghost predicate Holds(log: Log, snap: Option<Snapshot>, full: Log) {
    && SnapIndex(snap) <= |full|
    && log == full[SnapIndex(snap)..]
    && (snap.Some? ==> snap.value.index >= 1 && snap.value.term == full[snap.value.index - 1].term)
  }

  /** Entry k has index k + 1 and a positive term. */
  ghost predicate Numbered(full: Log) {
    forall k :: 0 <= k < |full| ==> full[k].index == k + 1 && full[k].term >= 1
  }

  lemma LogOkNumbered(c: Core, l: Log, t: nat)
    requires LogOk(c, l, t)
    ensures Numbered(l)
  {
    forall k | 0 <= k < |l| ensures l[k].index == k + 1 && l[k].term >= 1 { assert EntryOk(c, l, k, t); }
  }

  /** The snapshot hides nothing that the protocol asks about. */
  lemma ViewLast(log: Log, snap: Option<Snapshot>, full: Log)
    requires Holds(log, snap, full) && Numbered(full)
    ensures LastIndex(log, snap) == |full| && LastTerm(log, snap) == LastTermOf(full)
    ensures Contiguous(log, snap)
  {}

  lemma ViewTerm(log: Log, snap: Option<Snapshot>, full: Log, i: nat)
    requires Holds(log, snap, full) && Numbered(full)
    ensures TermAt(log, snap, i) ==
            if i == 0 then Some(0)
            else if SnapIndex(snap) <= i <= |full| then Some(full[i - 1].term) else None
  {
    ViewLast(log, snap, full);
  }

  lemma ViewEntries(log: Log, snap: Option<Snapshot>, full: Log, i: nat, batch: nat)
    requires Holds(log, snap, full) && Numbered(full) && SnapIndex(snap) < i <= |full| + 1
    ensures EntriesFrom(log, snap, i, batch) == full[i - 1..i - 1 + Min(batch, |full| - (i - 1))]
  {
    ViewLast(log, snap, full);
    var offset := i - (SnapIndex(snap) + 1);
    var count := Min(batch, |log| - offset);
    assert |log| - offset == |full| - (i - 1);
    SubSlice(full, SnapIndex(snap), offset, offset + count);
  }

  lemma SubSlice(full: Log, base: nat, i: nat, j: nat)
    requires base <= |full| && i <= j <= |full| - base
    ensures full[base..][i..j] == full[base + i..base + j]
  {}

  lemma ViewDrop(log: Log, snap: Option<Snapshot>, full: Log, snap': Option<Snapshot>)
    requires Holds(log, snap, full) && snap'.Some? && SnapIndex(snap) <= snap'.value.index <= |full|
    requires snap'.value.index >= 1 && snap'.value.term == full[snap'.value.index - 1].term
    ensures Holds(DropThrough(log, snap, snap'.value.index), snap', full)
  {}

  /** Replaying in two parts. */
  lemma {:induction false} ReplaySplit(image: Image, a: seq<LogEntry>, b: seq<LogEntry>)
    ensures Replay(image, a + b) == Replay(Replay(image, a), b)
    decreases |b|
  {
    if |b| == 0 {
      assert a + b == a;
    } else {
      var b' := b[..|b| - 1];
      assert (a + b)[..|a + b| - 1] == a + b';
      ReplaySplit(image, a, b');
    }
  }

  lemma ReplayPrefix(full: Log, i: nat, j: nat)
    requires i <= j <= |full|
    ensures Replay(map[], full[..j]) == Replay(Replay(map[], full[..i]), full[i..j])
  {
    assert full[..j] == full[..i] + full[i..j];
    ReplaySplit(map[], full[..i], full[i..j]);
  }

  // --------------------------------------------------------- the conflict loop

  lemma FirstStopBound(log: Log, snap: Option<Snapshot>, req: AppendRequest, j: nat)
    requires j <= |req.entries|
    ensures j <= FirstStop(log, snap, req, j) <= |req.entries|
    ensures forall k :: j <= k < FirstStop(log, snap, req, j) ==>
              TermAt(log, snap, req.prevIndex + k + 1) == Some(req.entries[k].term)
    ensures var p := FirstStop(log, snap, req, j);
            p < |req.entries| && req.entries[p].index == req.prevIndex + p + 1 ==>
              TermAt(log, snap, req.prevIndex + p + 1) != Some(req.entries[p].term)
    decreases |req.entries| - j
  {}

  lemma GoodRunAll(entries: seq<LogEntry>, j: nat, last: nat)
    requires j <= |entries|
    requires forall k :: j <= k < |entries| ==> entries[k].index == last + 1 + k - j && entries[k].term >= 1
    ensures GoodRun(entries, j, last) == |entries|
    decreases |entries| - j
  {}

  /** The entries of a request that a leader with log l sent. */
  ghost predicate Carries(req: AppendRequest, l: Log) {
    && req.prevIndex + |req.entries| <= |l|
    && req.entries == l[req.prevIndex..req.prevIndex + |req.entries|]
    && req.prevTerm == (if req.prevIndex == 0 then 0 else l[req.prevIndex - 1].term)
  }

  /** What a merge leaves behind, as a log. */
  function MergedLog(log: Log, m: Merge): Log {
    match m
    case Unchanged => log
    case Rejected => log
    case Changed(l) => l
    case Broken(l) => l
  }

  /** Equal terms mean equal prefixes, for this pair of logs. */
  ghost predicate MatchingAt(a: Log, b: Log, k: nat) {
    k < |a| && k < |b| && a[k].term == b[k].term ==> a[..k + 1] == b[..k + 1]
  }

  ghost predicate Matching(a: Log, b: Log) {
    forall k: nat :: MatchingAt(a, b, k)
  }

  /** Positions skipped by the loop already agree with the leader. */
  lemma SkippedAgree(log: Log, snap: Option<Snapshot>, full: Log, req: AppendRequest, l: Log, p: nat)
    requires Holds(log, snap, full) && Numbered(full) && Carries(req, l) && Matching(full, l)
    requires SnapIndex(snap) <= req.prevIndex <= |full| && full[..req.prevIndex] == l[..req.prevIndex]
    requires p <= |req.entries|
    requires forall k :: 0 <= k < p ==> TermAt(log, snap, req.prevIndex + k + 1) == Some(req.entries[k].term)
    ensures req.prevIndex + p <= |full| && full[..req.prevIndex + p] == l[..req.prevIndex + p]
  {
    if p > 0 {
      var i := req.prevIndex + p;
      assert TermAt(log, snap, req.prevIndex + (p - 1) + 1) == Some(req.entries[p - 1].term);
      ViewTerm(log, snap, full, i);
      assert l[i - 1] == req.entries[p - 1];
      assert MatchingAt(full, l, i - 1);
    }
  }

  /** The in-place merge of the retained entries is the takeover of the leader's prefix. */
  lemma MergeTakesOver(log: Log, snap: Option<Snapshot>, full: Log, req: AppendRequest, l: Log)
    requires Holds(log, snap, full) && Numbered(full) && Numbered(l) && Carries(req, l) && Matching(full, l)
    requires SnapIndex(snap) <= req.prevIndex <= |full| && full[..req.prevIndex] == l[..req.prevIndex]
    ensures var m := MergeEntries(log, snap, req);
            var k := req.prevIndex + |req.entries|;
            && (m.Unchanged? || m.Changed?)
            && (m.Unchanged? ==> Adjusted(full, l, k) == full)
            && (m.Changed? ==> Adjusted(full, l, k) == l[..k])
            && Holds(MergedLog(log, m), snap, Adjusted(full, l, k))
  {
    hide TermAt, GoodRun, FirstStop, Holds, Numbered, LastIndex, Matching;
    var p := FirstStop(log, snap, req, 0);
    FirstStopBound(log, snap, req, 0);
    SkippedAgree(log, snap, full, req, l, p);
    if p < |req.entries| {
      NumberedAt(req, l, p);
      CutDiffers(log, snap, full, req, l, p);
      CutKeeps(log, snap, full, req, l, p);
    }
  }

  lemma NumberedAt(req: AppendRequest, l: Log, p: nat)
    requires Carries(req, l) && Numbered(l) && p < |req.entries|
    ensures req.entries[p].index == req.prevIndex + p + 1
  {
    assert req.entries[p] == l[req.prevIndex + p];
  }

  /** At the entry where the loop stops, the logs part, so the whole prefix is not there yet. */
  lemma CutDiffers(log: Log, snap: Option<Snapshot>, full: Log, req: AppendRequest, l: Log, p: nat)
    requires Holds(log, snap, full) && Numbered(full) && Carries(req, l)
    requires SnapIndex(snap) <= req.prevIndex && p < |req.entries|
    requires TermAt(log, snap, req.prevIndex + p + 1) != Some(req.entries[p].term)
    ensures Adjusted(full, l, req.prevIndex + |req.entries|) == l[..req.prevIndex + |req.entries|]
  {
    var k, i := req.prevIndex + |req.entries|, req.prevIndex + p;
    assert req.entries[p] == l[i];
    ViewTerm(log, snap, full, i + 1);
    if k <= |full| { assert full[..k][i].term != l[..k][i].term; }
  }

  lemma CutKeeps(log: Log, snap: Option<Snapshot>, full: Log, req: AppendRequest, l: Log, p: nat)
    requires Holds(log, snap, full) && Numbered(l) && Carries(req, l)
    requires SnapIndex(snap) <= req.prevIndex && p == FirstStop(log, snap, req, 0) < |req.entries|
    requires req.prevIndex + p <= |full| && full[..req.prevIndex + p] == l[..req.prevIndex + p]
    ensures var m := MergeEntries(log, snap, req);
            m.Changed? && Holds(m.log, snap, l[..req.prevIndex + |req.entries|])
  {
    hide TermAt, GoodRun, FirstStop, Numbered, LastIndex, Holds, Carries;
    var base, i, k := SnapIndex(snap), req.prevIndex + p, req.prevIndex + |req.entries|;
    NumberedAt(req, l, p);
    CarriedRun(req, l, p);
    KeptIsPrefix(log, snap, full, l, i);
    SliceLast(l, snap, i);
    TakenHolds(log, snap, full, l, i, k, req.entries[p..]);
  }

  lemma KeptIsPrefix(log: Log, snap: Option<Snapshot>, full: Log, l: Log, i: nat)
    requires Holds(log, snap, full) && SnapIndex(snap) <= i <= |full| && i <= |l| && full[..i] == l[..i]
    ensures i - SnapIndex(snap) <= |log| && log[..i - SnapIndex(snap)] == l[SnapIndex(snap)..i]
  {
    SubSlice(full, SnapIndex(snap), 0, i - SnapIndex(snap));
    SubSliceTo(full, l, SnapIndex(snap), i);
  }

  lemma TakenHolds(log: Log, snap: Option<Snapshot>, full: Log, l: Log, i: nat, k: nat, tail: Log)
    requires Holds(log, snap, full) && SnapIndex(snap) <= i <= |full| && i <= k <= |l| && full[..i] == l[..i] && tail == l[i..k]
    ensures Holds(l[SnapIndex(snap)..i] + tail, snap, l[..k])
  {
    JoinSlices(l, SnapIndex(snap), i, k, tail);
    if snap.Some? { SnapTermKept(full, l, i, k, snap.value); }
  }

  lemma SliceLast(l: Log, snap: Option<Snapshot>, i: nat)
    requires Numbered(l) && SnapIndex(snap) <= i <= |l|
    ensures LastIndex(l[SnapIndex(snap)..i], snap) == i
  {}

  lemma SubSliceTo(a: Log, b: Log, base: nat, i: nat)
    requires base <= i <= |a| && i <= |b| && a[..i] == b[..i]
    ensures a[base..i] == b[base..i]
  {
    assert a[base..i] == a[..i][base..];
    assert b[base..i] == b[..i][base..];
  }

  lemma JoinSlices(l: Log, base: nat, i: nat, k: nat, tail: Log)
    requires base <= i <= k <= |l| && tail == l[i..k]
    ensures l[base..i] + tail == l[..k][base..]
  {}

  lemma CarriedRun(req: AppendRequest, l: Log, p: nat)
    requires Numbered(l) && Carries(req, l) && p <= |req.entries|
    ensures GoodRun(req.entries, p, req.prevIndex + p) == |req.entries|
    ensures req.prevIndex + |req.entries| <= |l|
    ensures req.entries[p..] == l[req.prevIndex + p..req.prevIndex + |req.entries|]
  {
    forall j | p <= j < |req.entries|
      ensures req.entries[j].index == req.prevIndex + p + 1 + j - p && req.entries[j].term >= 1
    {
      assert req.entries[j] == l[req.prevIndex + j];
    }
    GoodRunAll(req.entries, p, req.prevIndex + p);
  }

  lemma SnapTermKept(full: Log, l: Log, i: nat, k: nat, s: Snapshot)
    requires 1 <= s.index <= i <= k <= |l| && i <= |full| && full[..i] == l[..i] && s.term == full[s.index - 1].term
    ensures s.term == l[..k][s.index - 1].term
  {
    assert full[..i][s.index - 1] == l[..i][s.index - 1];
  }

  // ----------------------------------------------------------- quorum counting

  function CountAtLeast(s: seq<nat>, x: nat): nat {
    if |s| == 0 then 0 else (if s[0] >= x then 1 else 0) + CountAtLeast(s[1..], x)
  }

  ghost predicate Ascending(s: seq<nat>) {
    forall i, j :: 0 <= i < j < |s| ==> s[i] <= s[j]
  }

  lemma {:induction false} InsertKeeps(v: nat, s: seq<nat>, x: nat)
    requires Ascending(s)
    ensures Ascending(Insert(v, s))
    ensures CountAtLeast(Insert(v, s), x) == CountAtLeast(s, x) + (if v >= x then 1 else 0)
    ensures forall e :: e in Insert(v, s) <==> e == v || e in s
  {
    if |s| == 0 || v <= s[0] {
      assert ([v] + s)[1..] == s;
    } else {
      InsertKeeps(v, s[1..], x);
      var r := Insert(v, s[1..]);
      assert ([s[0]] + r)[1..] == r;
      forall e ensures e in [s[0]] + r <==> e == v || e in s { assert s == [s[0]] + s[1..]; }
      forall j | 0 <= j < |r| ensures s[0] <= r[j] { assert r[j] in r; }
    }
  }

  lemma {:induction false} SortedKeeps(s: seq<nat>, x: nat)
    ensures Ascending(Sorted(s)) && CountAtLeast(Sorted(s), x) == CountAtLeast(s, x)
  {
    if |s| > 0 {
      SortedKeeps(s[1..], x);
      InsertKeeps(s[0], Sorted(s[1..]), x);
    }
  }

  lemma {:induction false} CountBelow(s: seq<nat>, x: nat, i: nat)
    requires Ascending(s) && i <= |s|
    requires forall k :: i <= k < |s| ==> s[k] >= x
    ensures CountAtLeast(s, x) >= |s| - i
  {
    if |s| > 0 {
      CountBelow(s[1..], x, if i == 0 then 0 else i - 1);
    }
  }

  lemma {:induction false} CountAbove(s: seq<nat>, x: nat, i: nat)
    requires Ascending(s) && i <= |s|
    requires forall k :: 0 <= k < i ==> s[k] < x
    ensures CountAtLeast(s, x) <= |s| - i
  {
    if |s| > 0 {
      CountAbove(s[1..], x, if i == 0 then 0 else i - 1);
    }
  }

  /** The value chosen by sorting is the greatest index that a quorum has reached. */
  lemma QuorumIndexIsGreatest(cfg: Config, n: Node, x: nat)
    ensures x <= QuorumIndex(cfg, n) <==> CountAtLeast(Replicated(cfg, n), x) >= QuorumSize(cfg)
  {
    var r := Replicated(cfg, n);
    var s := Sorted(r);
    var i := |cfg.peers| + 1 - QuorumSize(cfg);
    SortedKeeps(r, x);
    if x <= s[i] {
      CountBelow(s, x, i);
    } else {
      CountAbove(s, x, i + 1);
    }
  }
}
