/** Bytes in memory and on disk. */
module Bytes {

  type Byte = b: nat | b < 256

  /** An integer as it is stored, little-endian, in k bytes. */
  function Le(n: nat, k: nat): (s: seq<Byte>)
    ensures |s| == k
  {
    if k == 0 then [] else [n % 256] + Le(n / 256, k - 1)
  }

  function Decode(s: seq<Byte>): nat {
    if s == [] then 0 else var b: nat := s[0]; b + 256 * Decode(s[1..])
  }

  function Power(k: nat): nat {
    if k == 0 then 1 else 256 * Power(k - 1)
  }

  lemma PowerFour()
    ensures Power(2) == 0x10000 && Power(4) == 0x100000000
  {
    assert Power(1) == 256 * Power(0);
    assert Power(2) == 256 * Power(1);
    assert Power(3) == 256 * Power(2);
    assert Power(4) == 256 * Power(3);
  }

  lemma {:induction false} DecodeLe(n: nat, k: nat)
    requires n < Power(k)
    ensures Decode(Le(n, k)) == n
  {
    if k > 0 {
      assert n / 256 < Power(k - 1);
      DecodeLe(n / 256, k - 1);
      assert Le(n, k)[1..] == Le(n / 256, k - 1);
    }
  }

  lemma {:induction false} DecodeZeros(s: seq<Byte>)
    requires forall i | 0 <= i < |s| :: s[i] == 0
    ensures Decode(s) == 0
  {
    if s != [] {
      DecodeZeros(s[1..]);
    }
  }

  /** The bytes s with d stored from position at on. */
  function Stored(s: seq<Byte>, at: nat, d: seq<Byte>): (r: seq<Byte>)
    requires at + |d| <= |s|
    ensures |r| == |s|
  {
    s[..at] + d + s[at + |d|..]
  }

  lemma StoredHere(s: seq<Byte>, at: nat, d: seq<Byte>)
    requires at + |d| <= |s|
    ensures Stored(s, at, d)[at..at + |d|] == d
  {
  }

  lemma StoredElsewhere(s: seq<Byte>, at: nat, d: seq<Byte>, a: nat, b: nat)
    requires at + |d| <= |s| && a <= b <= |s| && (b <= at || at + |d| <= a)
    ensures Stored(s, at, d)[a..b] == s[a..b]
  {
  }
}
