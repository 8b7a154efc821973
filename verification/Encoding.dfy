/** Little-endian numbers, length-prefixed byte strings, and the cursor that reads them back. */
module Encoding {
  import opened Basics

  function Pow256(w: nat): nat {
    if w == 0 then 1 else 256 * Pow256(w - 1)
  }

  /** The w low bytes of n, lowest first. */
  function Le(n: nat, w: nat): (s: seq<Byte>)
    ensures |s| == w
  {
    if w == 0 then [] else [n % 256] + Le(n / 256, w - 1)
  }

  function FromLe(s: seq<Byte>): (n: nat)
    ensures n < Pow256(|s|)
  {
    if |s| == 0 then 0 else s[0] + 256 * FromLe(s[1..])
  }

  lemma {:induction false} LeRoundTrip(n: nat, w: nat)
    requires n < Pow256(w)
    ensures FromLe(Le(n, w)) == n
  {
    if w > 0 {
      assert Le(n, w)[1..] == Le(n / 256, w - 1);
      LeRoundTrip(n / 256, w - 1);
    }
  }

  /** The other way round: the bytes of the number that was read are the bytes read. */
  lemma {:induction false} FromLeRoundTrip(s: seq<Byte>)
    ensures Le(FromLe(s), |s|) == s
  {
    if |s| > 0 {
      var r := FromLe(s[1..]);
      assert (s[0] + 256 * r) % 256 == s[0] && (s[0] + 256 * r) / 256 == r;
      FromLeRoundTrip(s[1..]);
    }
  }

  lemma Widths()
    ensures Pow256(1) == 0x100 && Pow256(2) == 0x1_0000 && Pow256(4) == 0x1_0000_0000
    ensures Pow256(8) == 0x1_0000_0000_0000_0000
  {
    assert Pow256(3) == 256 * Pow256(2);
    assert Pow256(6) == 256 * (256 * Pow256(4));
    assert Pow256(8) == 256 * (256 * Pow256(6));
  }

  /** Push the bytes of n one by one. */
  method AppendNumber(out: seq<Byte>, n: nat, w: nat) returns (r: seq<Byte>)
    ensures r == out + Le(n, w)
  {
    r := out;
    var rest, i := n, 0;
    while i < w
      invariant 0 <= i <= w && r + Le(rest, w - i) == out + Le(n, w)
    {
      assert Le(rest, w - i) == [rest % 256] + Le(rest / 256, w - i - 1);
      r := r + [rest % 256];
      rest := rest / 256;
      i := i + 1;
    }
  }

  /** Gather bytes into a number, the lowest first. */
  method ReadNumber(s: seq<Byte>) returns (n: nat)
    ensures n == FromLe(s)
  {
    n := 0;
    var i := |s|;
    while i > 0
      invariant 0 <= i <= |s| && n == FromLe(s[i..])
    {
      i := i - 1;
      assert s[i..][1..] == s[i + 1..];
      n := s[i] + 256 * n;
    }
  }

  // --------------------------------------------------------- reading from the front

  function TakeNumber(s: seq<Byte>, w: nat): Option<(nat, seq<Byte>)> {
    if |s| < w then None else Some((FromLe(s[..w]), s[w..]))
  }

  function Prefixed(b: Text): seq<Byte> {
    Le(|b|, 4) + b
  }

  function TakePrefixed(s: seq<Byte>): Option<(Text, seq<Byte>)> {
    match TakeNumber(s, 4)
    case None => None
    case Some((n, rest)) => if |rest| < n then None else Some((rest[..n], rest[n..]))
  }

  lemma TakeLe(n: nat, w: nat, rest: seq<Byte>)
    requires n < Pow256(w)
    ensures TakeNumber(Le(n, w) + rest, w) == Some((n, rest))
  {
    var s := Le(n, w) + rest;
    assert s[..w] == Le(n, w) && s[w..] == rest;
    LeRoundTrip(n, w);
  }

  lemma TakeText(b: Text, rest: seq<Byte>)
    requires |b| < 0x1_0000_0000
    ensures TakePrefixed(Prefixed(b) + rest) == Some((b, rest))
  {
    Widths();
    assert Prefixed(b) + rest == Le(|b|, 4) + (b + rest);
    TakeLe(|b|, 4, b + rest);
    assert (b + rest)[..|b|] == b && (b + rest)[|b|..] == rest;
  }

  /** A reading position in an input. A read past the end leaves the source by an exception. */
  class Decoder {
    const input: seq<Byte>
    var position: nat

    ghost predicate Valid()
      reads this
    {
      position <= |input|
    }

    ghost function Rest(): seq<Byte>
      requires Valid()
      reads this
    {
      input[position..]
    }

    constructor (input: seq<Byte>)
      ensures Valid() && Rest() == input
    {
      this.input, position := input, 0;
    }

    method Number(w: nat) returns (r: Option<nat>)
      requires Valid()
      modifies this
      ensures Valid()
      ensures match TakeNumber(old(Rest()), w)
              case None => r.None?
              case Some((n, rest)) => r == Some(n) && Rest() == rest
    {
      if w > |input| - position {
        return None;
      }
      var n := ReadNumber(input[position..position + w]);
      assert old(Rest())[..w] == input[position..position + w] && old(Rest())[w..] == input[position + w..];
      position := position + w;
      r := Some(n);
    }

    method Text() returns (r: Option<Text>)
      requires Valid()
      modifies this
      ensures Valid()
      ensures match TakePrefixed(old(Rest()))
              case None => r.None?
              case Some((b, rest)) => r == Some(b) && Rest() == rest
    {
      var size := Number(4);
      if size.None? {
        return None;
      }
      if size.value > |input| - position {
        return None;
      }
      r := Some(input[position..position + size.value]);
      assert Rest()[..size.value] == r.value && Rest()[size.value..] == input[position + size.value..];
      position := position + size.value;
    }

    method AtEnd() returns (r: bool)
      requires Valid()
      ensures r <==> Rest() == []
    {
      r := position == |input|;
    }
  }
}
