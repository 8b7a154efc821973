/** The Bloom filter of src/bloom_filter.cpp. Bit count and hash count are parameters; whatever
    they are, a key that was added is never denied. */
module Bloom {
  import opened Basics

  const WORD_BITS: nat := 64
  const WRAP: nat := 0x1_0000_0000_0000_0000

  // ---------------------------------------------------------------------- hashing

  function Mix(value: bv64): bv64 {
    var a := (value ^ (value >> 30)) * 0xBF58476D1CE4E5B9;
    var b := (a ^ (a >> 27)) * 0x94D049BB133111EB;
    b ^ (b >> 31)
  }

  function Octet(b: Byte): bv64 {
    b as bv64
  }

  function FnvStep(hash: bv64, b: Byte): bv64 {
    (hash ^ Octet(b)) * 1099511628211
  }

  function Fnv(key: Text): bv64 {
    if |key| == 0 then 14695981039346656037 else FnvStep(Fnv(key[..|key| - 1]), key[|key| - 1])
  }

  function GoldenStep(hash: bv64, b: Byte): bv64 {
    hash ^ (Octet(b) + 0x9E3779B97F4A7C15 + (hash << 6) + (hash >> 2))
  }

  function Golden(key: Text): bv64 {
    if |key| == 0 then 0x9E3779B97F4A7C15 else GoldenStep(Golden(key[..|key| - 1]), key[|key| - 1])
  }

  function Primary(key: Text): bv64 {
    Mix(Fnv(key))
  }

  function Secondary(key: Text): bv64 {
    var hash := Mix(Golden(key) ^ 0xD6E8FEB86659FD93);
    if hash == 0 then 0xA0761D6478BD642F else hash
  }

  method PrimaryHash(key: Text) returns (h: bv64)
    ensures h == Primary(key)
  {
    hide FnvStep, Mix;
    h := 14695981039346656037;
    var i := 0;
    assert key[..0] == [];
    while i < |key|
      invariant 0 <= i <= |key| && h == Fnv(key[..i])
    {
      assert key[..i + 1][..i] == key[..i];
      h := FnvStep(h, key[i]);
      i := i + 1;
    }
    assert key[..i] == key;
    h := Mix(h);
  }

  method SecondaryHash(key: Text) returns (h: bv64)
    ensures h == Secondary(key) && h != 0
  {
    hide GoldenStep, Mix;
    h := 0x9E3779B97F4A7C15;
    var i := 0;
    assert key[..0] == [];
    while i < |key|
      invariant 0 <= i <= |key| && h == Golden(key[..i])
    {
      assert key[..i + 1][..i] == key[..i];
      h := GoldenStep(h, key[i]);
      i := i + 1;
    }
    assert key[..i] == key;
    h := Mix(h ^ 0xD6E8FEB86659FD93);
    if h == 0 {
      h := 0xA0761D6478BD642F;
    }
  }

  /** Double hashing with 64-bit wrap-around, reduced to a bit position. */
  function BitIndex(first: bv64, second: bv64, i: nat, bits: nat): (b: nat)
    requires bits > 0
    ensures b < bits
  {
    (((first as nat) + i * (second as nat)) % WRAP) % bits
  }

  // ------------------------------------------------------------------- one word

  /** A bit number within a word. */
  function Narrow(i: nat): bv6
    requires i < WORD_BITS
  {
    i as bv6
  }

  function Bit(a: bv6): bv64 {
    1 << a
  }

  function Mask(i: nat): bv64
    requires i < WORD_BITS
  {
    Bit(Narrow(i))
  }

  predicate Hit(word: bv64, mask: bv64) {
    word & mask != 0
  }

  lemma MaskNonZero(i: nat)
    requires i < WORD_BITS
    ensures Hit(Mask(i), Mask(i))
  {
    hide Narrow;
    BitNonZero(Narrow(i));
  }

  lemma BitNonZero(a: bv6)
    ensures Hit(Bit(a), Bit(a))
  {}

  function Or(a: bv64, b: bv64): bv64 {
    a | b
  }

  lemma Distributes(word: bv64, more: bv64, mask: bv64)
    ensures Or(word, more) & mask == Or(word & mask, more & mask)
  {}

  lemma OrZero(a: bv64, b: bv64)
    requires Or(a, b) == 0
    ensures a == 0 && b == 0
  {}

  lemma OrKeeps(word: bv64, more: bv64, mask: bv64)
    ensures Hit(word, mask) || Hit(more, mask) ==> Hit(Or(word, more), mask)
  {
    Distributes(word, more, mask);
    hide Or;
    if !Hit(Or(word, more), mask) { OrZero(word & mask, more & mask); }
  }

  // ------------------------------------------------------------------ the filter

  predicate BitSet(words: seq<bv64>, b: nat)
    requires b < |words| * WORD_BITS
  {
    Hit(words[b / WORD_BITS], Mask(b % WORD_BITS))
  }

  /** The i-th bit position of a key in a filter of that many bits. */
  function Position(key: Text, i: nat, bits: nat): (b: nat)
    requires bits > 0
    ensures b < bits
  {
    BitIndex(Primary(key), Secondary(key), i, bits)
  }

  /** All hash positions of the key are set. */
  ghost predicate Covers(words: seq<bv64>, hashes: nat, key: Text)
    requires |words| > 0
  {
    forall i :: 0 <= i < hashes ==> BitSet(words, Position(key, i, |words| * WORD_BITS))
  }

  function SetBit(words: seq<bv64>, b: nat): (r: seq<bv64>)
    requires b < |words| * WORD_BITS
    ensures |r| == |words|
  {
    words[b / WORD_BITS := Or(words[b / WORD_BITS], Mask(b % WORD_BITS))]
  }

  /** Setting a bit sets it and clears none. */
  lemma SetBitKeeps(words: seq<bv64>, b: nat, c: nat)
    requires b < |words| * WORD_BITS && c < |words| * WORD_BITS
    ensures BitSet(SetBit(words, b), b) && (BitSet(words, c) ==> BitSet(SetBit(words, b), c))
  {
    hide Hit, Mask, Or;
    MaskNonZero(b % WORD_BITS);
    OrKeeps(words[b / WORD_BITS], Mask(b % WORD_BITS), Mask(b % WORD_BITS));
    OrKeeps(words[b / WORD_BITS], Mask(b % WORD_BITS), Mask(c % WORD_BITS));
  }

  lemma MasksApart(i: nat, j: nat)
    requires i < WORD_BITS && j < WORD_BITS && i != j
    ensures Mask(i) & Mask(j) == 0
  {
    hide Narrow, Bit;
    NarrowBack(i);
    NarrowBack(j);
    BitsApart(Narrow(i), Narrow(j));
  }

  lemma NarrowBack(i: nat)
    requires i < WORD_BITS
    ensures Narrow(i) as nat == i
  {}

  lemma BitsApart(a: bv6, b: bv6)
    requires a != b
    ensures Bit(a) & Bit(b) == 0
  {}

  lemma OrElsewhere(word: bv64, more: bv64, mask: bv64)
    requires more & mask == 0
    ensures Hit(Or(word, more), mask) == Hit(word, mask)
  {
    hide Or;
    Distributes(word, more, mask);
    OrNothing(word & mask);
  }

  lemma OrNothing(a: bv64)
    ensures Or(a, 0) == a
  {}

  /** Setting a bit sets that one and leaves the others. */
  lemma SetBitExact(words: seq<bv64>, b: nat, c: nat)
    requires b < |words| * WORD_BITS && c < |words| * WORD_BITS
    ensures BitSet(SetBit(words, b), c) <==> BitSet(words, c) || c == b
  {
    hide Hit, Mask, Or;
    SetBitKeeps(words, b, c);
    if c != b && b / WORD_BITS == c / WORD_BITS {
      MasksApart(b % WORD_BITS, c % WORD_BITS);
      OrElsewhere(words[b / WORD_BITS], Mask(b % WORD_BITS), Mask(c % WORD_BITS));
    }
  }

  /** Bit c is among the first n positions of the key. */
  ghost predicate Marks(key: Text, n: nat, bits: nat, c: nat)
    requires bits > 0
  {
    exists i :: 0 <= i < n && Position(key, i, bits) == c
  }

  /** Bit c is a position of one of these keys. */
  ghost predicate Marked(keys: set<Text>, n: nat, bits: nat, c: nat)
    requires bits > 0
  {
    exists k :: k in keys && Marks(k, n, bits, c)
  }

  /** Exactly the positions of these keys are set. */
  ghost predicate Holds(words: seq<bv64>, keys: set<Text>, n: nat)
    requires |words| > 0
  {
    forall c: nat :: c < |words| * WORD_BITS ==> (BitSet(words, c) <==> Marked(keys, n, |words| * WORD_BITS, c))
  }

  /** Exactly the positions of these keys, and the first i of one more, are set. */
  ghost predicate Adding(words: seq<bv64>, keys: set<Text>, n: nat, key: Text, i: nat)
    requires |words| > 0
  {
    var bits := |words| * WORD_BITS;
    forall c: nat :: c < bits ==> (BitSet(words, c) <==> Marked(keys, n, bits, c) || Marks(key, i, bits, c))
  }

  lemma AddingMore(words: seq<bv64>, keys: set<Text>, n: nat, key: Text, i: nat)
    requires |words| > 0 && Adding(words, keys, n, key, i)
    ensures Adding(SetBit(words, Position(key, i, |words| * WORD_BITS)), keys, n, key, i + 1)
  {
    hide BitSet, SetBit, Position, Marked;
    var bits := |words| * WORD_BITS;
    var b := Position(key, i, bits);
    forall c: nat | c < bits ensures BitSet(SetBit(words, b), c) <==> Marked(keys, n, bits, c) || Marks(key, i + 1, bits, c) {
      SetBitExact(words, b, c);
    }
  }

  lemma Added(words: seq<bv64>, keys: set<Text>, n: nat, key: Text)
    requires |words| > 0 && Adding(words, keys, n, key, n)
    ensures Holds(words, keys + {key}, n)
  {
    hide BitSet, Marks;
    var bits := |words| * WORD_BITS;
    forall c: nat | c < bits ensures BitSet(words, c) <==> Marked(keys + {key}, n, bits, c) {
      if Marks(key, n, bits, c) { assert key in keys + {key}; }
      if k :| k in keys && Marks(k, n, bits, c) { assert k in keys + {key}; }
    }
  }

  lemma NothingAdded(words: seq<bv64>, n: nat)
    requires |words| > 0 && forall i :: 0 <= i < |words| ==> words[i] == 0
    ensures Holds(words, {}, n)
  {
    hide Mask;
  }

  lemma NoneOfKey(words: seq<bv64>, keys: set<Text>, n: nat, key: Text)
    requires |words| > 0 && Holds(words, keys, n)
    ensures Adding(words, keys, n, key, 0)
  {
    hide BitSet, Marked;
  }

  /** The key's positions are all set exactly when each is a position of some key. */
  lemma CoveredByMarks(words: seq<bv64>, keys: set<Text>, n: nat, key: Text)
    requires |words| > 0 && Holds(words, keys, n)
    ensures Covers(words, n, key) <==> forall i :: 0 <= i < n ==> Marked(keys, n, |words| * WORD_BITS, Position(key, i, |words| * WORD_BITS))
    ensures key in keys ==> Covers(words, n, key)
  {
    hide BitSet, Position;
    var bits := |words| * WORD_BITS;
    assert forall i :: 0 <= i < n ==> (BitSet(words, Position(key, i, bits)) <==> Marked(keys, n, bits, Position(key, i, bits)));
    if key in keys {
      forall i | 0 <= i < n ensures Marked(keys, n, bits, Position(key, i, bits)) { assert Marks(key, n, bits, Position(key, i, bits)); }
    }
  }

  class BloomFilter {
    const hashes: nat
    var words: seq<bv64>
    var inserted: nat
    ghost var added: set<Text>

    ghost predicate Valid()
      reads this
    {
      |words| > 0 && hashes > 0 && Holds(words, added, hashes)
    }

    constructor (wordCount: nat, hashes: nat)
      requires wordCount > 0 && hashes > 0
      ensures Valid() && added == {} && |words| == wordCount && this.hashes == hashes
    {
      var zeros := seq(wordCount, i => 0);
      NothingAdded(zeros, hashes);
      words := zeros;
      this.hashes, inserted, added := hashes, 0, {};
    }

    /** The set bits are exactly the positions of the added keys, before and after. */
    method Add(key: Text)
      requires Valid()
      modifies this
      ensures Valid() && added == old(added) + {key} && |words| == |old(words)| && inserted == old(inserted) + 1
    {
      hide BitSet, SetBit, BitIndex, Holds, Adding, Primary, Secondary;
      var first := PrimaryHash(key);
      var second := SecondaryHash(key);
      var i := 0;
      NoneOfKey(words, added, hashes, key);
      while i < hashes
        invariant 0 <= i <= hashes && |words| == |old(words)| && added == old(added) && inserted == old(inserted)
        invariant Adding(words, added, hashes, key, i)
      {
        var b := BitIndex(first, second, i, |words| * WORD_BITS);
        AddingMore(words, added, hashes, key, i);
        words := SetBit(words, b);
        i := i + 1;
      }
      Added(words, added, hashes, key);
      inserted := inserted + 1;
      added := added + {key};
    }

    /** The answer is exactly whether every position of the key is a position of some added key, so an
        added key is never denied. */
    method MayContain(key: Text) returns (r: bool)
      requires Valid()
      ensures r <==> Covers(words, hashes, key)
      ensures r <==> forall i :: 0 <= i < hashes ==> Marked(added, hashes, |words| * WORD_BITS, Position(key, i, |words| * WORD_BITS))
      ensures key in added ==> r
    {
      hide BitSet, BitIndex, Primary, Secondary, Marked, Holds;
      var first := PrimaryHash(key);
      var second := SecondaryHash(key);
      CoveredByMarks(words, added, hashes, key);
      var i := 0;
      while i < hashes
        invariant 0 <= i <= hashes && Partly(words, key, i)
      {
        assert BitIndex(first, second, i, |words| * WORD_BITS) == Position(key, i, |words| * WORD_BITS);
        if !BitSet(words, BitIndex(first, second, i, |words| * WORD_BITS)) {
          return false;
        }
        i := i + 1;
      }
      r := true;
    }
  }

  ghost predicate Partly(words: seq<bv64>, key: Text, n: nat)
    requires |words| > 0
  {
    forall i :: 0 <= i < n ==> BitSet(words, Position(key, i, |words| * WORD_BITS))
  }

  /** A published value of the 64-bit FNV-1a hash: that of the text "a". */
  lemma FnvCheck()
    ensures Fnv([97]) == 0xAF63DC4C8601EC8C
  {
    assert [97 as Byte][..0] == [];
    FnvOne();
  }

  lemma FnvOne()
    ensures FnvStep(14695981039346656037, 97) == 0xAF63DC4C8601EC8C
  {}
}
