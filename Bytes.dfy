/** Byte strings: in-place splicing and the little-endian integer codec
    (`int.from_bytes` / `int.to_bytes` with byteorder 'little'). */
module Bytes {

  /** One byte of the store. */
  newtype Byte = x: int | 0 <= x < 256

  /** `s` with the bytes [at, at + |v|) replaced by `v` (a bytearray slice
      assignment whose bounds lie inside the array). */
  function Splice(s: seq<Byte>, at: nat, v: seq<Byte>): (r: seq<Byte>)
    requires at + |v| <= |s|
    ensures |r| == |s|
    ensures r[at..at + |v|] == v
    ensures forall k :: 0 <= k < |s| && !(at <= k < at + |v|) ==> r[k] == s[k]
  {
    s[..at] + v + s[at + |v|..]
  }

  /** Two stores agree on [lo, hi). */
  ghost predicate SameOn(s: seq<Byte>, t: seq<Byte>, lo: nat, hi: nat)
    requires lo <= hi <= |s| && hi <= |t|
  {
    forall k :: lo <= k < hi ==> s[k] == t[k]
  }

  lemma SameOnSlices(s: seq<Byte>, t: seq<Byte>, lo: nat, hi: nat)
    requires lo <= hi <= |s| && hi <= |t|
    requires SameOn(s, t, lo, hi)
    ensures s[lo..hi] == t[lo..hi]
  {
  }

  /** Writing back the bytes already there changes nothing. */
  lemma SpliceSelf(s: seq<Byte>, at: nat, n: nat)
    requires at + n <= |s|
    ensures Splice(s, at, s[at..at + n]) == s
  {
    assert forall k :: 0 <= k < |s| ==> Splice(s, at, s[at..at + n])[k] == s[k];
  }

  /** 256^n, the number of values an n-byte field holds. */
  function Pow256(n: nat): (r: nat)
    ensures r >= 1
    ensures n >= 1 ==> r >= 256
  {
    if n == 0 then 1 else 256 * Pow256(n - 1)
  }

  /** `int.from_bytes(bs, 'little')`: the first byte is the least significant. */
  function FromLE(bs: seq<Byte>): (v: nat)
    ensures v < Pow256(|bs|)
  {
    if bs == [] then 0 else bs[0] as nat + 256 * FromLE(bs[1..])
  }

  /** `v.to_bytes(n, 'little')`, defined where Python does not raise
      OverflowError. */
  function ToLE(v: nat, n: nat): (bs: seq<Byte>)
    requires v < Pow256(n)
    ensures |bs| == n
    ensures FromLE(bs) == v
  {
    if n == 0 then []
    else
      var rest := ToLE(v / 256, n - 1);
      var bs := [(v % 256) as Byte] + rest;
      assert bs[1..] == rest;
      bs
  }

  /** The codec is a bijection: encoding what was decoded gives the bytes back. */
  lemma {:induction false} ToLEFromLE(bs: seq<Byte>)
    ensures ToLE(FromLE(bs), |bs|) == bs
  {
    if bs != [] {
      ToLEFromLE(bs[1..]);
      var v := FromLE(bs);
      assert v % 256 == bs[0] as nat && v / 256 == FromLE(bs[1..]);
      assert ((v % 256) as Byte) == bs[0];
    }
  }

  /** Two byte strings of one length decode to the same integer only if they are equal. */
  lemma FromLEInjective(a: seq<Byte>, b: seq<Byte>)
    requires |a| == |b| && FromLE(a) == FromLE(b)
    ensures a == b
  {
    ToLEFromLE(a);
    ToLEFromLE(b);
  }

  /** `int.from_bytes(bs, 'big')` for the two signature bytes of the MBR. */
  function FromBE2(hi: Byte, lo: Byte): (v: nat)
    ensures v < 0x1_0000
    ensures v / 256 == hi as nat && v % 256 == lo as nat
  {
    hi as nat * 256 + lo as nat
  }
}
