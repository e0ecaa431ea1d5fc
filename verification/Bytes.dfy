/** Bytes, and numbers written most significant byte first. */
module Bytes {

  type byte = b: int | 0 <= b < 256

  /** The memory that lies outside a container: any byte at any place. */
  type Memory = nat -> byte

  function Pow256(n: nat): (p: nat)
    ensures p >= 1
  {
    if n == 0 then 1 else 256 * Pow256(n - 1)
  }

  lemma Pow256Values()
    ensures Pow256(1) == 0x100
    ensures Pow256(2) == 0x1_0000
    ensures Pow256(4) == 0x1_0000_0000
    ensures Pow256(8) == 0x1_0000_0000_0000_0000
  {
    assert Pow256(2) == 256 * Pow256(1);
    assert Pow256(4) == 256 * (256 * Pow256(2));
    assert Pow256(6) == 256 * (256 * Pow256(4));
    assert Pow256(8) == 256 * (256 * Pow256(6));
  }

  function BigEndian(n: nat, v: nat): (s: seq<byte>)
    requires v < Pow256(n)
    ensures |s| == n
  {
    if n == 0 then [] else BigEndian(n - 1, v / 256) + [v % 256]
  }

  function FromBigEndian(s: seq<byte>): (v: nat)
    ensures v < Pow256(|s|)
  {
    if s == [] then 0
    else
      var high := FromBigEndian(s[..|s| - 1]);
      256 * high + s[|s| - 1]
  }

  lemma {:induction false} FromBigEndianInverts(n: nat, v: nat)
    requires v < Pow256(n)
    ensures FromBigEndian(BigEndian(n, v)) == v
  {
    if n > 0 {
      var s := BigEndian(n, v);
      assert s[..n - 1] == BigEndian(n - 1, v / 256);
      FromBigEndianInverts(n - 1, v / 256);
    }
  }

  lemma {:induction false} BigEndianInverts(s: seq<byte>)
    ensures BigEndian(|s|, FromBigEndian(s)) == s
  {
    if s != [] {
      var high := s[..|s| - 1];
      BigEndianInverts(high);
      var v := FromBigEndian(s);
      assert v / 256 == FromBigEndian(high) && v % 256 == s[|s| - 1];
      assert s == high + [s[|s| - 1]];
    }
  }

  /** Writing the two halves of a number one after the other writes the number. */
  lemma {:induction false} BigEndianSplits(m: nat, n: nat, high: nat, low: nat)
    requires high < Pow256(m) && low < Pow256(n)
    ensures high * Pow256(n) + low < Pow256(m + n)
    ensures BigEndian(m + n, high * Pow256(n) + low) == BigEndian(m, high) + BigEndian(n, low)
  {
    if n == 0 {
      assert high * Pow256(0) == high;
    } else {
      var p := Pow256(n - 1);
      BigEndianSplits(m, n - 1, high, low / 256);
      ShiftByte(high, p);
      assert high * Pow256(n) + low == 256 * (high * p + low / 256) + low % 256;
      AppendLowByte(m + n, high * p + low / 256, low % 256);
      assert BigEndian(n, low) == BigEndian(n - 1, low / 256) + [low % 256];
    }
  }

  lemma ShiftByte(high: nat, p: nat)
    ensures high * (256 * p) == 256 * (high * p)
  {
  }

  lemma AppendLowByte(n: nat, high: nat, low: byte)
    requires n >= 1 && high < Pow256(n - 1)
    ensures 256 * high + low < Pow256(n)
    ensures BigEndian(n, 256 * high + low) == BigEndian(n - 1, high) + [low]
  {
    var v := 256 * high + low;
    assert v / 256 == high && v % 256 == low;
  }

  function Reversed(s: seq<byte>): (r: seq<byte>)
    ensures |r| == |s|
    ensures forall k :: 0 <= k < |s| ==> r[k] == s[|s| - 1 - k]
  {
    if s == [] then [] else Reversed(s[1..]) + [s[0]]
  }

  lemma ReversedTwice(s: seq<byte>)
    ensures Reversed(Reversed(s)) == s
  {
  }

  /** Half of the numbers of n bytes: where two's complement turns negative. */
  function Half256(n: nat): (h: nat)
    requires n >= 1
    ensures Pow256(n) == 2 * h
  {
    128 * Pow256(n - 1)
  }

  /** Two's complement: the unsigned pattern of a signed number of n bytes. */
  function ToPattern(n: nat, v: int): (p: nat)
    requires n >= 1 && -(Half256(n) as int) <= v < Half256(n)
    ensures p < Pow256(n)
  {
    if v < 0 then v + Pow256(n) else v
  }

  function FromPattern(n: nat, p: nat): (v: int)
    requires n >= 1 && p < Pow256(n)
    ensures -(Half256(n) as int) <= v < Half256(n)
    ensures ToPattern(n, v) == p
  {
    if p < Half256(n) then p else p - Pow256(n)
  }

  lemma TwoBytes(c: seq<byte>)
    requires |c| >= 2
    ensures FromBigEndian(c[..2]) == 256 * (c[0] as int) + c[1]
  {
    assert c[..2][..1] == [c[0]];
    assert FromBigEndian([c[0]]) == c[0];
  }
}
