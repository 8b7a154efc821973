/** CRC-32 as src/checksum_calculator.cpp computes it, bit by bit (section 8 of RFC 1952): why no change
    of a single byte goes unnoticed, and that it is the remainder of a polynomial division. */
module Checksum {
  import opened Basics

  const POLYNOMIAL: bv32 := 0xEDB88320
  const ALL_ONES: bv32 := 0xFFFFFFFF

  // -------------------------------------------------------------- widening a byte

  /** The low k bits of n, lowest first. */
  function Bits(n: nat, k: nat): (s: seq<bool>)
    ensures |s| == k
  {
    if k == 0 then [] else [n % 2 == 1] + Bits(n / 2, k - 1)
  }

  function Pow2(k: nat): nat {
    if k == 0 then 1 else 2 * Pow2(k - 1)
  }

  lemma {:induction false} BitsInjective(a: nat, b: nat, k: nat)
    requires a < Pow2(k) && b < Pow2(k) && Bits(a, k) == Bits(b, k)
    ensures a == b
  {
    if k > 0 {
      assert Bits(a, k)[0] == Bits(b, k)[0];
      assert Bits(a, k)[1..] == Bits(a / 2, k - 1) && Bits(b, k)[1..] == Bits(b / 2, k - 1);
      BitsInjective(a / 2, b / 2, k - 1);
    }
  }

  function Join(s: seq<bool>): bv32
    requires |s| == 8
  {
    (if s[0] then 1 else 0) | (if s[1] then 2 else 0) | (if s[2] then 4 else 0) | (if s[3] then 8 else 0)
    | (if s[4] then 16 else 0) | (if s[5] then 32 else 0) | (if s[6] then 64 else 0) | (if s[7] then 128 else 0)
  }

  lemma JoinInjective(s: seq<bool>, t: seq<bool>)
    requires |s| == 8 && |t| == 8 && Join(s) == Join(t)
    ensures s == t
  {
    assert s[0] == t[0] && s[1] == t[1] && s[2] == t[2] && s[3] == t[3];
    assert s[4] == t[4] && s[5] == t[5] && s[6] == t[6] && s[7] == t[7];
  }

  /** A byte as a 32-bit word. */
  function Wide(b: Byte): bv32 {
    Join(Bits(b, 8))
  }

  lemma WideInjective(a: Byte, b: Byte)
    requires Wide(a) == Wide(b)
    ensures a == b
  {
    hide Join, Bits;
    JoinInjective(Bits(a, 8), Bits(b, 8));
    PowEight();
    BitsInjective(a, b, 8);
  }

  lemma PowEight()
    ensures Pow2(8) == 256
  {
    assert Pow2(4) == 16 && Pow2(8) == 2 * (2 * (2 * (2 * Pow2(4))));
  }

  // -------------------------------------------------------------------- the steps

  function Half(c: bv32): bv32 { c >> 1 }

  predicate Odd(c: bv32) { c & 1 == 1 }

  function Shift(c: bv32): bv32 {
    Xor(Half(c), if Odd(c) then POLYNOMIAL else 0)
  }

  function Shifts(c: bv32, n: nat): bv32 {
    if n == 0 then c else Shift(Shifts(c, n - 1))
  }

  function Xor(a: bv32, b: bv32): bv32 {
    a ^ b
  }

  function Step(c: bv32, b: Byte): bv32 {
    Shifts(Xor(c, Wide(b)), 8)
  }

  function Run(c: bv32, s: seq<Byte>): bv32 {
    if |s| == 0 then c else Step(Run(c, s[..|s| - 1]), s[|s| - 1])
  }

  function Crc(s: seq<Byte>): bv32 {
    Xor(Run(ALL_ONES, s), ALL_ONES)
  }

  /** One bit step can be undone: its top bit tells whether the polynomial was added. */
  lemma ShiftInjective(a: bv32, b: bv32)
    requires Shift(a) == Shift(b)
    ensures a == b
  {}

  lemma {:induction false} ShiftsInjective(a: bv32, b: bv32, n: nat)
    requires Shifts(a, n) == Shifts(b, n)
    ensures a == b
  {
    if n > 0 {
      ShiftInjective(Shifts(a, n - 1), Shifts(b, n - 1));
      ShiftsInjective(a, b, n - 1);
    }
  }

  lemma XorInjective(a: bv32, b: bv32, c: bv32)
    ensures Xor(a, c) == Xor(b, c) ==> a == b
    ensures Xor(c, a) == Xor(c, b) ==> a == b
  {}

  /** Each step is injective in the state and in the byte. */
  lemma StepInjective(c: bv32, d: bv32, x: Byte, y: Byte)
    requires Step(c, x) == Step(d, y)
    ensures x == y ==> c == d
    ensures c == d ==> x == y
  {
    hide Wide, Shifts, Xor;
    ShiftsInjective(Xor(c, Wide(x)), Xor(d, Wide(y)), 8);
    XorInjective(c, d, Wide(x));
    XorInjective(Wide(x), Wide(y), c);
    if Wide(x) == Wide(y) { WideInjective(x, y); }
  }

  lemma {:induction false} RunInjective(c: bv32, d: bv32, s: seq<Byte>)
    requires Run(c, s) == Run(d, s)
    ensures c == d
  {
    hide Step;
    if |s| > 0 {
      StepInjective(Run(c, s[..|s| - 1]), Run(d, s[..|s| - 1]), s[|s| - 1], s[|s| - 1]);
      RunInjective(c, d, s[..|s| - 1]);
    }
  }

  lemma {:induction false} RunSplit(c: bv32, s: seq<Byte>, t: seq<Byte>)
    ensures Run(c, s + t) == Run(Run(c, s), t)
  {
    hide Step;
    if |t| == 0 {
      assert s + t == s;
    } else {
      assert (s + t)[..|s + t| - 1] == s + t[..|t| - 1];
      RunSplit(c, s, t[..|t| - 1]);
    }
  }

  ghost predicate OneByteApart(s: seq<Byte>, t: seq<Byte>, i: nat) {
    |s| == |t| && i < |s| && s[i] != t[i] && s[..i] == t[..i] && s[i + 1..] == t[i + 1..]
  }

  /** Two texts that differ in exactly one byte have different checksums, whatever their length. */
  lemma OneByteChangesCrc(s: seq<Byte>, t: seq<Byte>, i: nat)
    requires OneByteApart(s, t, i)
    ensures Crc(s) != Crc(t)
  {
    hide Run, Step, Xor;
    var c := Run(ALL_ONES, s[..i]);
    assert s == s[..i] + [s[i]] + s[i + 1..] && t == t[..i] + [t[i]] + t[i + 1..];
    RunSplit(ALL_ONES, s[..i] + [s[i]], s[i + 1..]);
    RunSplit(ALL_ONES, t[..i] + [t[i]], t[i + 1..]);
    RunSplit(ALL_ONES, s[..i], [s[i]]);
    RunSplit(ALL_ONES, t[..i], [t[i]]);
    XorInjective(Run(ALL_ONES, s), Run(ALL_ONES, t), ALL_ONES);
    if Crc(s) == Crc(t) {
      RunInjective(Run(c, [s[i]]), Run(c, [t[i]]), s[i + 1..]);
      RunOne(c, s[i]);
      RunOne(c, t[i]);
      StepInjective(c, c, s[i], t[i]);
    }
  }

  lemma RunOne(c: bv32, b: Byte)
    ensures Run(c, [b]) == Step(c, b)
  {
    assert Run(c, []) == c && [b][..0] == [];
  }

  /** The nested loops; what they compute is the complemented remainder of a division. */
  method Crc32(data: seq<Byte>) returns (r: bv32)
    ensures r == Crc(data)
    ensures r == Word(Add(Remainder(Dividend(Ones(DEGREE), MessageBits(data))), Ones(DEGREE)))
  {
    hide Run, Wide, Shift, Shifts, Xor, Masked, Word, Remainder, Dividend, MessageBits;
    var checksum: bv32 := ALL_ONES;
    var i := 0;
    RunNone(checksum);
    assert data[..0] == [];
    while i < |data|
      invariant 0 <= i <= |data| && checksum == Run(ALL_ONES, data[..i])
    {
      checksum := Xor(checksum, Wide(data[i]));
      ghost var mixed := checksum;
      ShiftsMore(mixed, 0);
      var bit := 0;
      while bit < 8
        invariant 0 <= bit <= 8 && checksum == Shifts(mixed, bit)
      {
        MaskedShift(checksum);
        ShiftsMore(mixed, bit);
        checksum := Masked(checksum, 0 - (checksum & 1));
        bit := bit + 1;
      }
      RunMore(ALL_ONES, data, i);
      i := i + 1;
    }
    assert data[..i] == data;
    r := Xor(checksum, ALL_ONES);
    CrcIsRemainder(data);
  }

  lemma RunNone(c: bv32)
    ensures Run(c, []) == c
  {}

  lemma RunMore(c: bv32, s: seq<Byte>, i: nat)
    requires i < |s|
    ensures Run(c, s[..i + 1]) == Step(Run(c, s[..i]), s[i])
  {
    assert s[..i + 1][..i] == s[..i];
  }

  lemma ShiftsMore(c: bv32, n: nat)
    ensures Shifts(c, 0) == c && Shifts(c, n + 1) == Shift(Shifts(c, n))
  {}

  /** Shift right and add the polynomial where the mask lets it through. */
  function Masked(c: bv32, mask: bv32): bv32 {
    (c >> 1) ^ (POLYNOMIAL & mask)
  }

  lemma MaskedShift(c: bv32)
    ensures Masked(c, 0 - (c & 1)) == Shift(c)
  {
    if c & 1 == 1 {
      assert 0 - (c & 1) == ALL_ONES;
      assert POLYNOMIAL & ALL_ONES == POLYNOMIAL;
    } else {
      assert 0 - (c & 1) == 0;
    }
  }

  // ------------------------------------------------------ the checksum as a number

  function Sum(s: seq<Byte>): (n: nat)
    ensures n < 0x1_0000_0000
  {
    Crc(s) as nat
  }

  lemma NumberInjective(a: bv32, b: bv32)
    requires a as nat == b as nat
    ensures a == b
  {
    assert (a as nat) as bv32 == a;
  }

  lemma OneByteChangesSum(s: seq<Byte>, t: seq<Byte>, i: nat)
    requires OneByteApart(s, t, i)
    ensures Sum(s) != Sum(t)
  {
    hide Crc;
    OneByteChangesCrc(s, t, i);
    if Sum(s) == Sum(t) { NumberInjective(Crc(s), Crc(t)); }
  }

  // -------------------------------------------------- division of polynomials over GF(2)

  /** A polynomial over the field of two elements is the list of its coefficients, highest power first. */
  type Poly = seq<bool>

  /** The powers of x in the generator of section 8.1.1.6.2 of ITU-T V.42, which RFC 1952 refers to. */
  const EXPONENTS: set<nat> := {32, 26, 23, 22, 16, 12, 11, 10, 8, 7, 5, 4, 2, 1, 0}
  const DEGREE: nat := 32

  function Generator(): (g: Poly)
    ensures |g| == DEGREE + 1 && forall i :: 0 <= i <= DEGREE ==> (g[i] <==> DEGREE - i in EXPONENTS)
  {
    seq(DEGREE + 1, i requires 0 <= i <= DEGREE => DEGREE - i in EXPONENTS)
  }

  function Add(a: Poly, b: Poly): (r: Poly)
    requires |a| == |b|
    ensures |r| == |a| && forall i :: 0 <= i < |a| ==> r[i] == (a[i] != b[i])
  {
    seq(|a|, i requires 0 <= i < |a| => a[i] != b[i])
  }

  function Zeros(n: nat): (r: Poly)
    ensures |r| == n && forall i :: 0 <= i < n ==> !r[i]
  {
    seq(n, i => false)
  }

  function Ones(n: nat): (r: Poly)
    ensures |r| == n && forall i :: 0 <= i < n ==> r[i]
  {
    seq(n, i => true)
  }

  /** The product of q and the generator. */
  function Product(q: Poly): (r: Poly)
    ensures |r| == |q| + DEGREE
  {
    if |q| == 0 then Zeros(DEGREE)
    else Add(Top(q[0], |q| - 1), [false] + Product(q[1..]))
  }

  /** r is what is left of p after division by the generator: p is a multiple of it and r, of lower degree. */
  ghost predicate Remains(p: Poly, q: Poly, r: Poly) {
    |r| == DEGREE && |p| == |q| + DEGREE && p == Add(Product(q), Zeros(|q|) + r)
  }

  /** One step of long division takes the leading coefficient away. */
  function Reduced(p: Poly): (r: Poly)
    requires |p| > DEGREE
    ensures |r| == |p| - 1
  {
    if p[0] then Add(p, Generator() + Zeros(|p| - DEGREE - 1))[1..] else p[1..]
  }

  function Remainder(p: Poly): (r: Poly)
    requires |p| >= DEGREE
    ensures |r| == DEGREE
    decreases |p|
  {
    if |p| == DEGREE then p else Remainder(Reduced(p))
  }

  /** Long division ends with the one remainder there is. */
  lemma {:induction false} RemainderExact(p: Poly, q: Poly, r: Poly)
    requires Remains(p, q, r)
    ensures r == Remainder(p)
    decreases |q|
  {
    if |q| == 0 {
      assert r == p;
    } else {
      ReducedRemains(p, q, r);
      RemainderExact(Reduced(p), q[1..], r);
    }
  }

  /** What a step of long division does to one coefficient. */
  lemma ReducedAt(p: Poly, i: nat)
    requires |p| > DEGREE && i < |p| - 1
    ensures Reduced(p)[i] == (p[i + 1] != (p[0] && Tap(i)))
  {}

  predicate Tap(i: nat) {
    i < DEGREE && DEGREE - 1 - i in EXPONENTS
  }

  lemma ShiftedGenerator(n: nat, i: nat)
    requires i < n + DEGREE
    ensures var g := Generator() + Zeros(n); g[0] && g[i + 1] == Tap(i)
  {}

  /** The generator at the top of n + 32 further coefficients, or nothing. */
  function Top(b: bool, n: nat): (r: Poly)
    ensures |r| == n + DEGREE + 1
  {
    if b then Generator() + Zeros(n) else Zeros(n + DEGREE + 1)
  }

  lemma TopAt(b: bool, n: nat, i: nat)
    requires i < n + DEGREE
    ensures Top(b, n)[0] == b && Top(b, n)[i + 1] == (b && Tap(i))
  {
    hide Tap;
    ShiftedGenerator(n, i);
  }

  lemma ProductAt(q: Poly, i: nat)
    requires |q| > 0 && i < |q| + DEGREE - 1
    ensures Product(q)[0] == q[0] && Product(q)[i + 1] == (Product(q[1..])[i] != (q[0] && Tap(i)))
  {
    hide Top, Tap;
    TopAt(q[0], |q| - 1, i);
    var r := [false] + Product(q[1..]);
    assert Product(q) == Add(Top(q[0], |q| - 1), r);
    hide Product;
    assert !r[0] && r[i + 1] == Product(q[1..])[i];
  }

  lemma ReducedRemains(p: Poly, q: Poly, r: Poly)
    requires Remains(p, q, r) && |q| > 0
    ensures p[0] == q[0] && Remains(Reduced(p), q[1..], r)
  {
    hide Product, Reduced, Tap, EXPONENTS;
    ProductAt(q, 0);
    forall i: nat | i < |p| - 1 ensures Reduced(p)[i] == Add(Product(q[1..]), Zeros(|q| - 1) + r)[i] {
      ReducedAt(p, i);
      ProductAt(q, i);
    }
  }

  /** And there always is one. */
  lemma {:induction false} Divide(p: Poly) returns (q: Poly)
    requires |p| >= DEGREE
    ensures |q| == |p| - DEGREE && Remains(p, q, Remainder(p))
    decreases |p|
  {
    if |p| == DEGREE {
      q := [];
    } else {
      var q' := Divide(Reduced(p));
      q := [p[0]] + q';
      assert q[1..] == q';
      UnreducedRemains(p, q, Remainder(p));
    }
  }

  lemma UnreducedRemains(p: Poly, q: Poly, r: Poly)
    requires |q| > 0 && |p| == |q| + DEGREE && p[0] == q[0] && Remains(Reduced(p), q[1..], r)
    ensures Remains(p, q, r)
  {
    hide Product, Reduced, Tap;
    ProductAt(q, 0);
    forall i: nat | i < |p| ensures p[i] == Add(Product(q), Zeros(|q|) + r)[i] {
      if i > 0 {
        ReducedAt(p, i - 1);
        ProductAt(q, i - 1);
        assert Reduced(p)[i - 1] == Add(Product(q[1..]), Zeros(|q| - 1) + r)[i - 1];
      }
    }
  }

  // ------------------------------------------------------- the register is a remainder

  /** The low n bits of a register, lowest first. */
  function Low(c: bv32, n: nat): (p: Poly)
    ensures |p| == n
  {
    if n == 0 then [] else [Odd(c)] + Low(Half(c), n - 1)
  }

  function Halved(c: bv32, n: nat): bv32 {
    if n == 0 then c else Halved(Half(c), n - 1)
  }

  function Rejoin(c: bv32, b: bool): bv32 {
    (c << 1) | (if b then 1 else 0)
  }

  /** The register with these bits, lowest first. */
  function Word(p: Poly): bv32 {
    if |p| == 0 then 0 else Rejoin(Word(p[1..]), p[0])
  }

  lemma {:induction false} WordOfLow(c: bv32, n: nat)
    requires Halved(c, n) == 0
    ensures Word(Low(c, n)) == c
    decreases n
  {
    hide Half, Odd, Rejoin;
    if n > 0 {
      WordOfLow(Half(c), n - 1);
      assert Low(c, n)[1..] == Low(Half(c), n - 1);
      Rejoined(c);
    }
  }

  lemma Rejoined(c: bv32)
    ensures Rejoin(Half(c), Odd(c)) == c
  {}

  lemma {:induction false} LowOfXor(a: bv32, b: bv32, n: nat)
    ensures Low(Xor(a, b), n) == Add(Low(a, n), Low(b, n))
    decreases n
  {
    hide Half, Odd, Xor;
    if n > 0 {
      XorHalf(a, b);
      XorOdd(a, b);
      LowOfXor(Half(a), Half(b), n - 1);
    }
  }

  lemma XorHalf(a: bv32, b: bv32)
    ensures Half(Xor(a, b)) == Xor(Half(a), Half(b))
  {}

  lemma XorOdd(a: bv32, b: bv32)
    ensures Odd(Xor(a, b)) == (Odd(a) != Odd(b))
  {}

  lemma {:induction false} LowOfHalf(c: bv32, n: nat)
    requires n > 0 && Halved(c, n) == 0
    ensures Low(Half(c), n) == Low(c, n)[1..] + [false]
    decreases n
  {
    hide Half, Odd;
    if n == 1 {
      ZeroIsEven();
      assert Halved(c, 1) == Halved(Half(c), 0) == Half(c);
      assert Low(Half(c), 1) == [Odd(Half(c))] + Low(Half(Half(c)), 0);
    } else {
      LowOfHalf(Half(c), n - 1);
    }
  }

  lemma ZeroIsEven()
    ensures !Odd(0)
  {}

  lemma {:induction false} HalvedSplit(c: bv32, m: nat, n: nat)
    ensures Halved(c, m + n) == Halved(Halved(c, m), n)
    decreases m
  {
    hide Half;
    if m > 0 { HalvedSplit(Half(c), m - 1, n); }
  }

  /** 32 shifts leave nothing. */
  lemma HalvedAway(c: bv32)
    ensures Halved(c, 32) == 0
  {
    hide Half, Half8;
    HalvedSplit(c, 8, 24);
    HalvedSplit(Half8(c), 8, 16);
    HalvedSplit(Half8(Half8(c)), 8, 8);
    HalvedEight(c);
    HalvedEight(Half8(c));
    HalvedEight(Half8(Half8(c)));
    HalvedEight(Half8(Half8(Half8(c))));
    EightFour(c);
  }

  function Half8(c: bv32): bv32 { c >> 8 }

  lemma EightFour(c: bv32)
    ensures Half8(Half8(Half8(Half8(c)))) == 0
  {}

  lemma HalvedEight(c: bv32)
    ensures Halved(c, 8) == Half8(c)
  {
    HalvedFour(c);
    HalvedFour(Half(Half(Half(Half(c)))));
    HalvedSplit(c, 4, 4);
    Halves(c);
  }

  lemma Halves(c: bv32)
    ensures Half(Half(Half(Half(Half(Half(Half(Half(c)))))))) == Half8(c)
  {}

  lemma HalvedFour(c: bv32)
    ensures Halved(c, 4) == Half(Half(Half(Half(c))))
  {
    hide Half;
    var d := Half(Half(c));
    assert Halved(c, 4) == Halved(d, 2) == Halved(Half(Half(d)), 0);
  }

  lemma {:induction false} LowSplit(c: bv32, m: nat, n: nat)
    ensures Low(c, m + n) == Low(c, m) + Low(Halved(c, m), n)
    decreases m
  {
    hide Half, Odd;
    if m > 0 { LowSplit(Half(c), m - 1, n); }
  }

  lemma LowFour(c: bv32)
    ensures Low(c, 4) == [Odd(c), Odd(Half(c)), Odd(Half(Half(c))), Odd(Half(Half(Half(c))))]
  {
    hide Half, Odd;
    var d := Half(Half(c));
    assert Low(c, 4) == [Odd(c), Odd(Half(c))] + Low(d, 2);
    assert Low(d, 2) == [Odd(d), Odd(Half(d))] + Low(Half(Half(d)), 0);
  }

  lemma LowEight(c: bv32)
    ensures Low(c, 8) == [c & 1 != 0, c & 2 != 0, c & 4 != 0, c & 8 != 0, c & 16 != 0, c & 32 != 0, c & 64 != 0, c & 128 != 0]
  {
    hide Half, Odd, Low, Halved;
    LowSplit(c, 4, 4);
    HalvedFour(c);
    LowFour(c);
    LowFour(Half(Half(Half(Half(c)))));
    OddHalves(c);
    OddHalvesMore(c);
  }

  lemma OddHalves(c: bv32)
    ensures Odd(c) == (c & 1 != 0) && Odd(Half(c)) == (c & 2 != 0)
    ensures Odd(Half(Half(c))) == (c & 4 != 0) && Odd(Half(Half(Half(c)))) == (c & 8 != 0)
  {}

  lemma OddHalvesMore(c: bv32)
    ensures var d := Half(Half(Half(Half(c))));
            && Odd(d) == (c & 16 != 0) && Odd(Half(d)) == (c & 32 != 0)
            && Odd(Half(Half(d))) == (c & 64 != 0) && Odd(Half(Half(Half(d)))) == (c & 128 != 0)
  {}

  lemma GeneratorBits()
    ensures Low(POLYNOMIAL, DEGREE) == Generator()[1..]
  {
    hide Low, Halved;
    LowSplit(POLYNOMIAL, 8, 24);
    HalvedEight(POLYNOMIAL);
    LowSplit(0x00EDB883, 8, 16);
    HalvedEight(0x00EDB883);
    LowSplit(0x0000EDB8, 8, 8);
    HalvedEight(0x0000EDB8);
    LowEight(POLYNOMIAL);
    LowEight(0x00EDB883);
    LowEight(0x0000EDB8);
    LowEight(0x000000ED);
  }

  lemma {:induction false} LowOfZero(n: nat)
    ensures Low(0, n) == Zeros(n)
    decreases n
  {
    if n > 0 {
      assert Half(0) == 0 && !Odd(0);
      LowOfZero(n - 1);
    }
  }

  lemma LowOfOnes()
    ensures Low(ALL_ONES, DEGREE) == Ones(DEGREE)
  {
    hide Low, Halved;
    LowSplit(ALL_ONES, 8, 24);
    HalvedEight(ALL_ONES);
    LowSplit(0x00FFFFFF, 8, 16);
    HalvedEight(0x00FFFFFF);
    LowSplit(0x0000FFFF, 8, 8);
    HalvedEight(0x0000FFFF);
    LowEight(ALL_ONES);
    LowEight(0x00FFFFFF);
    LowEight(0x0000FFFF);
    LowEight(0x000000FF);
  }

  lemma ShiftParts(c: bv32)
    ensures Shift(c) == Xor(Half(c), if Odd(c) then POLYNOMIAL else 0)
  {
    hide POLYNOMIAL, Half, Odd, Xor;
  }

  /** A bit step of the register is a step of long division. */
  lemma ShiftReduces(c: bv32)
    ensures Low(Shift(c), DEGREE) == Reduced(Low(c, DEGREE) + [false])
  {
    hide Shift, Half, Odd, Xor, Halved, Reduced, POLYNOMIAL, Low, Add, Zeros, Generator;
    var taken := if Odd(c) then POLYNOMIAL else 0;
    ShiftParts(c);
    LowOfXor(Half(c), taken, DEGREE);
    HalvedAway(c);
    LowOfHalf(c, DEGREE);
    GeneratorBits();
    LowOfZero(DEGREE);
    LowMore(c, DEGREE);
    ReducedWindow(Low(c, DEGREE));
  }

  lemma ReducedWindow(w: Poly)
    requires |w| == DEGREE
    ensures Reduced(w + [false]) == Add(w[1..] + [false], if w[0] then Generator()[1..] else Zeros(DEGREE))
  {
    hide Reduced, Tap;
    var p := w + [false];
    forall i: nat | i < DEGREE ensures Reduced(p)[i] == Add(w[1..] + [false], if w[0] then Generator()[1..] else Zeros(DEGREE))[i] {
      ReducedAt(p, i);
      ShiftedGenerator(0, i);
      assert (w[1..] + [false])[i] == p[i + 1];
    }
  }

  /** Feeding message bits to a register of coefficients, each added to the highest one. */
  function Fed(w: Poly, m: Poly): (r: Poly)
    requires |w| == DEGREE
    ensures |r| == DEGREE
    decreases |m|
  {
    if |m| == 0 then w else Fed(Reduced([w[0] != m[0]] + w[1..] + [false]), m[1..])
  }

  lemma {:induction false} FedSplit(w: Poly, a: Poly, b: Poly)
    requires |w| == DEGREE
    ensures Fed(w, a + b) == Fed(Fed(w, a), b)
    decreases |a|
  {
    if |a| == 0 {
      assert a + b == b;
    } else {
      assert (a + b)[1..] == a[1..] + b;
      FedSplit(Reduced([w[0] != a[0]] + w[1..] + [false]), a[1..], b);
    }
  }

  /** A message followed by room for the remainder, with w added at its front. */
  function Dividend(w: Poly, m: Poly): (p: Poly)
    requires |w| == DEGREE
    ensures |p| == |m| + DEGREE
  {
    Add(w + Zeros(|m|), m + Zeros(DEGREE))
  }

  /** Feeding a message is dividing it. */
  lemma {:induction false} FedIsRemainder(w: Poly, m: Poly)
    requires |w| == DEGREE
    ensures Fed(w, m) == Remainder(Dividend(w, m))
    decreases |m|
  {
    if |m| == 0 {
      assert Dividend(w, m) == w;
    } else {
      var w' := Reduced([w[0] != m[0]] + w[1..] + [false]);
      DividendReduced(w, m);
      FedIsRemainder(w', m[1..]);
    }
  }

  lemma DividendReduced(w: Poly, m: Poly)
    requires |w| == DEGREE && |m| > 0
    ensures Reduced(Dividend(w, m)) == Dividend(Reduced([w[0] != m[0]] + w[1..] + [false]), m[1..])
  {
    hide Reduced, Tap;
    var p, v := Dividend(w, m), [w[0] != m[0]] + w[1..] + [false];
    var q := Dividend(Reduced(v), m[1..]);
    forall i: nat | i < |p| - 1 ensures Reduced(p)[i] == q[i] {
      ReducedAt(p, i);
      NoTap(i);
      assert (m + Zeros(DEGREE))[i + 1] == (m[1..] + Zeros(DEGREE))[i];
      if i < DEGREE { ReducedAt(v, i); }
    }
  }

  lemma NoTap(i: nat)
    ensures i >= DEGREE ==> !Tap(i)
  {}

  lemma ShiftApart(c: bv32, v: bv32)
    ensures Shift(Xor(c, v)) == Xor(Shift(Xor(c, if Odd(v) then 1 else 0)), Half(v))
  {
    hide Shift, Xor, Half, Odd, POLYNOMIAL;
    var u := if Odd(v) then 1 else 0;
    ShiftParts(Xor(c, v));
    ShiftParts(Xor(c, u));
    XorHalf(c, v);
    XorHalf(c, u);
    XorOdd(c, v);
    XorOdd(c, u);
    BitHalf(u);
    XorNone(Half(c));
    XorSwap(Half(c), Half(v), if Odd(Xor(c, v)) then POLYNOMIAL else 0);
  }

  lemma XorSwap(a: bv32, b: bv32, c: bv32)
    ensures Xor(Xor(a, b), c) == Xor(Xor(a, c), b)
  {
    hide Xor;
    XorAssociates(a, b, c);
    XorAssociates(a, c, b);
    XorCommutes(b, c);
  }

  lemma XorAssociates(a: bv32, b: bv32, c: bv32)
    ensures Xor(Xor(a, b), c) == Xor(a, Xor(b, c))
  {}

  lemma XorCommutes(a: bv32, b: bv32)
    ensures Xor(a, b) == Xor(b, a)
  {}

  lemma {:induction false} ShiftsFirst(c: bv32, n: nat)
    ensures Shifts(c, n + 1) == Shifts(Shift(c), n)
  {
    hide Shift;
    if n > 0 { ShiftsFirst(c, n - 1); }
  }

  lemma LowOfBit(c: bv32, b: bool)
    ensures Low(Xor(c, if b then 1 else 0), DEGREE) == [Low(c, DEGREE)[0] != b] + Low(c, DEGREE)[1..]
  {
    hide Xor, Half, Low, Odd;
    var v := if b then 1 else 0;
    LowOfXor(c, v, DEGREE);
    BitHalf(v);
    LowOfZero(DEGREE - 1);
    LowMore(v, DEGREE);
    var w := Low(c, DEGREE);
    assert Add(w, [b] + Zeros(DEGREE - 1)) == [w[0] != b] + w[1..];
  }

  lemma LowMore(c: bv32, n: nat)
    requires n > 0
    ensures Low(c, n) == [Odd(c)] + Low(Half(c), n - 1)
  {}

  lemma BitHalf(v: bv32)
    requires v == 0 || v == 1
    ensures Half(v) == 0 && Odd(v) == (v == 1)
  {}

  /** Adding a group of bits first and then shifting them through is feeding them one by one. */
  lemma {:induction false} ShiftsFeed(c: bv32, v: bv32, n: nat)
    requires Halved(v, n) == 0
    ensures Low(Shifts(Xor(c, v), n), DEGREE) == Fed(Low(c, DEGREE), Low(v, n))
    decreases n
  {
    hide Shift, Xor, Half, Odd, Reduced;
    if n == 0 {
      XorNone(c);
    } else {
      var b := Odd(v);
      var d := Shift(Xor(c, if b then 1 else 0));
      ShiftApart(c, v);
      ShiftsFirst(Xor(c, v), n - 1);
      LowOfBit(c, b);
      ShiftReduces(Xor(c, if b then 1 else 0));
      ShiftsFeed(d, Half(v), n - 1);
      assert Low(v, n)[1..] == Low(Half(v), n - 1);
    }
  }

  lemma XorNone(c: bv32)
    ensures Xor(c, 0) == c
  {}

  lemma LowOfJoin(s: seq<bool>)
    requires |s| == 8
    ensures Low(Join(s), 8) == s && Halved(Join(s), 8) == 0
  {
    hide Low, Halved, Join, Half8;
    LowEight(Join(s));
    HalvedEight(Join(s));
    JoinBits(s);
  }

  lemma JoinBits(s: seq<bool>)
    requires |s| == 8
    ensures var c := Join(s);
            && (c & 1 != 0) == s[0] && (c & 2 != 0) == s[1] && (c & 4 != 0) == s[2] && (c & 8 != 0) == s[3]
            && (c & 16 != 0) == s[4] && (c & 32 != 0) == s[5] && (c & 64 != 0) == s[6] && (c & 128 != 0) == s[7] && Half8(c) == 0
  {}

  lemma StepFeeds(c: bv32, b: Byte)
    ensures Low(Step(c, b), DEGREE) == Fed(Low(c, DEGREE), Bits(b, 8))
  {
    hide Low, Shifts, Fed, Xor, Halved, Join;
    LowOfJoin(Bits(b, 8));
    ShiftsFeed(c, Wide(b), 8);
  }

  /** The bits of a message: each byte's lowest first. */
  function MessageBits(s: seq<Byte>): Poly {
    if |s| == 0 then [] else MessageBits(s[..|s| - 1]) + Bits(s[|s| - 1], 8)
  }

  lemma {:induction false} RunFeeds(c: bv32, s: seq<Byte>)
    ensures Low(Run(c, s), DEGREE) == Fed(Low(c, DEGREE), MessageBits(s))
  {
    hide Low, Step, Fed, Bits;
    if |s| == 0 {
      FedNothing(Low(c, DEGREE));
    } else {
      RunFeeds(c, s[..|s| - 1]);
      StepFeeds(Run(c, s[..|s| - 1]), s[|s| - 1]);
      FedSplit(Low(c, DEGREE), MessageBits(s[..|s| - 1]), Bits(s[|s| - 1], 8));
    }
  }

  lemma FedNothing(w: Poly)
    requires |w| == DEGREE
    ensures Fed(w, []) == w
  {}

  /** The checksum of a message is the remainder of its bits, with the first 32 of the dividend
      complemented, on division by the generator, read from the highest coefficient up and complemented. */
  lemma CrcIsRemainder(s: seq<Byte>)
    ensures Crc(s) == Word(Add(Remainder(Dividend(Ones(DEGREE), MessageBits(s))), Ones(DEGREE)))
  {
    hide Low, Run, Fed, Xor, Word, Remainder, Dividend, Halved;
    RunFeeds(ALL_ONES, s);
    LowOfOnes();
    FedIsRemainder(Ones(DEGREE), MessageBits(s));
    LowOfXor(Run(ALL_ONES, s), ALL_ONES, DEGREE);
    HalvedAway(Crc(s));
    WordOfLow(Crc(s), DEGREE);
  }

  function Shift8(c: bv32): bv32 {
    Shift(Shift(Shift(Shift(Shift(Shift(Shift(Shift(c))))))))
  }

  lemma ShiftsEight(c: bv32)
    ensures Shifts(c, 8) == Shift8(c)
  {
    hide Shift, Shifts;
    ShiftsMore(c, 0);
    ShiftsMore(c, 1);
    ShiftsMore(c, 2);
    ShiftsMore(c, 3);
    ShiftsMore(c, 4);
    ShiftsMore(c, 5);
    ShiftsMore(c, 6);
    ShiftsMore(c, 7);
  }

  lemma DigitStep(c: bv32, b: Byte, w: bv32, d: bv32, s: seq<Byte>, i: nat)
    requires Wide(b) == w && Shift8(Xor(c, w)) == d && i < |s| && s[i] == b && Run(ALL_ONES, s[..i]) == c
    ensures Run(ALL_ONES, s[..i + 1]) == d
  {
    hide Shift8, Xor, Shifts, Run, Wide;
    ShiftsEight(Xor(c, w));
    RunMore(ALL_ONES, s, i);
  }

  lemma DigitsWide()
    ensures Wide(49) == 49 && Wide(50) == 50 && Wide(51) == 51 && Wide(52) == 52 && Wide(53) == 53
    ensures Wide(54) == 54 && Wide(55) == 55 && Wide(56) == 56 && Wide(57) == 57
  {
    hide Wide;
    DigitWide(49, true, false, false, false, 49);
    DigitWide(50, false, true, false, false, 50);
    DigitWide(51, true, true, false, false, 51);
    DigitWide(52, false, false, true, false, 52);
    DigitWide(53, true, false, true, false, 53);
    DigitWide(54, false, true, true, false, 54);
    DigitWide(55, true, true, true, false, 55);
    DigitWide(56, false, false, false, true, 56);
    DigitWide(57, true, false, false, true, 57);
  }

  function Binary(a: bool, b: bool, c: bool, d: bool): nat {
    (if a then 1 else 0) + (if b then 2 else 0) + (if c then 4 else 0) + (if d then 8 else 0)
  }

  lemma DigitWide(n: Byte, a: bool, b: bool, c: bool, d: bool, w: bv32)
    requires n == 48 + Binary(a, b, c, d)
    requires w == (if a then 1 else 0) | (if b then 2 else 0) | (if c then 4 else 0) | (if d then 8 else 0) | 16 | 32
    ensures Wide(n) == w
  {
    hide Bits;
    DigitBits(n, a, b, c, d);
  }

  lemma DigitBits(n: nat, a: bool, b: bool, c: bool, d: bool)
    requires n == 48 + Binary(a, b, c, d)
    ensures Bits(n, 8) == [a, b, c, d, true, true, false, false]
  {
    hide Bits;
    var x, y, z := 24 + Binary(b, c, d, false), 12 + Binary(c, d, false, false), 6 + Binary(d, false, false, false);
    BitsMore(n, x, a, 8);
    BitsMore(x, y, b, 7);
    BitsMore(y, z, c, 6);
    BitsMore(z, 3, d, 5);
    BitsOfThree();
  }

  lemma BitsOfThree()
    ensures Bits(3, 4) == [true, true, false, false]
  {}

  lemma BitsMore(n: nat, half: nat, b: bool, k: nat)
    requires k > 0 && n == 2 * half + (if b then 1 else 0)
    ensures Bits(n, k) == [b] + Bits(half, k - 1)
  {}

  lemma DigitsShifted()
    ensures Shift8(Xor(0xFFFFFFFF, 49)) == 0x7C231048
    ensures Shift8(Xor(0x7C231048, 50)) == 0xB0ACBB32
    ensures Shift8(Xor(0xB0ACBB32, 51)) == 0x77B79C2D
    ensures Shift8(Xor(0x77B79C2D, 52)) == 0x641C1F5C
    ensures Shift8(Xor(0x641C1F5C, 53)) == 0x340AC5E3
    ensures Shift8(Xor(0x340AC5E3, 54)) == 0xF68D2C9E
    ensures Shift8(Xor(0xF68D2C9E, 55)) == 0xAFFC9660
    ensures Shift8(Xor(0xAFFC9660, 56)) == 0x651F2550
    ensures Shift8(Xor(0x651F2550, 57)) == 0x340BC6D9
  {}

  lemma DigitsRun(s: seq<Byte>)
    requires |s| == 9 && forall i :: 0 <= i < 9 ==> s[i] == 49 + i
    ensures Run(ALL_ONES, s) == 0x340BC6D9
  {
    hide Run, Wide, Shift8, Xor;
    DigitsWide();
    DigitsShifted();
    RunNone(ALL_ONES);
    assert s[..0] == [] && s[..9] == s;
    DigitStep(0xFFFFFFFF, 49, 49, 0x7C231048, s, 0);
    DigitStep(0x7C231048, 50, 50, 0xB0ACBB32, s, 1);
    DigitStep(0xB0ACBB32, 51, 51, 0x77B79C2D, s, 2);
    DigitStep(0x77B79C2D, 52, 52, 0x641C1F5C, s, 3);
    DigitStep(0x641C1F5C, 53, 53, 0x340AC5E3, s, 4);
    DigitStep(0x340AC5E3, 54, 54, 0xF68D2C9E, s, 5);
    DigitStep(0xF68D2C9E, 55, 55, 0xAFFC9660, s, 6);
    DigitStep(0xAFFC9660, 56, 56, 0x651F2550, s, 7);
    DigitStep(0x651F2550, 57, 57, 0x340BC6D9, s, 8);
  }

  lemma DigitsEnd()
    ensures Xor(0x340BC6D9, ALL_ONES) == 0xCBF43926
  {}

  /** The check value: the digits 1 to 9 have checksum 0xCBF43926. */
  lemma CheckValue()
    ensures Crc([49, 50, 51, 52, 53, 54, 55, 56, 57]) == 0xCBF43926
  {
    hide Run, Xor;
    DigitsRun([49, 50, 51, 52, 53, 54, 55, 56, 57]);
    DigitsEnd();
  }
}
