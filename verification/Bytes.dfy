/** Bytes, byte strings and the ASCII case rules shared by all components. */
module Bytes {

  type byte = x: int | 0 <= x < 256

  type u16 = x: int | 0 <= x < 0x10000

  type u32 = x: int | 0 <= x < 0x1_0000_0000

  const DOT: byte := 46

  datatype Option<+T> = None | Some(value: T)

  /** dns_tolower: only 'A'..'Z' change. */
  function LowerByte(b: byte): (r: byte)
  {
    if 65 <= b <= 90 then b + 32 else b
  }

  function Lower(s: seq<byte>): (r: seq<byte>)
    ensures |r| == |s|
    ensures forall i :: 0 <= i < |s| ==> r[i] == LowerByte(s[i])
  {
    seq(|s|, i requires 0 <= i < |s| => LowerByte(s[i]))
  }

  function LowerAll(ls: seq<seq<byte>>): (r: seq<seq<byte>>)
    ensures |r| == |ls|
    ensures forall i :: 0 <= i < |ls| ==> r[i] == Lower(ls[i])
  {
    seq(|ls|, i requires 0 <= i < |ls| => Lower(ls[i]))
  }

  /** pdns_iequals. */
  predicate SameText(a: seq<byte>, b: seq<byte>)
  {
    Lower(a) == Lower(b)
  }

  predicate SameLabels(a: seq<seq<byte>>, b: seq<seq<byte>>)
  {
    LowerAll(a) == LowerAll(b)
  }

  lemma LowerSlice(s: seq<byte>, i: nat, j: nat)
    requires i <= j <= |s|
    ensures Lower(s[i..j]) == Lower(s)[i..j]
  {
  }

  lemma LowerConcat(a: seq<byte>, b: seq<byte>)
    ensures Lower(a + b) == Lower(a) + Lower(b)
  {
  }

  lemma LowerAllCons(l: seq<byte>, ls: seq<seq<byte>>)
    ensures LowerAll([l] + ls) == [Lower(l)] + LowerAll(ls)
  {
  }

  lemma SameLabelsConcat(a: seq<seq<byte>>, b: seq<seq<byte>>, c: seq<seq<byte>>, d: seq<seq<byte>>)
    requires SameLabels(a, b) && SameLabels(c, d)
    ensures SameLabels(a + c, b + d)
  {
    assert |a| == |LowerAll(a)| == |LowerAll(b)| == |b|;
    assert LowerAll(a + c) == LowerAll(a) + LowerAll(c);
    assert LowerAll(b + d) == LowerAll(b) + LowerAll(d);
  }

  /** Big-endian fields, as htons and htonl lay them out. */
  function U16(v: u16): (r: seq<byte>)
    ensures |r| == 2
  {
    [v / 256, v % 256]
  }

  function U32(v: u32): (r: seq<byte>)
    ensures |r| == 4
  {
    U16(v / 0x1_0000) + U16(v % 0x1_0000)
  }

  function U48(v: int): (r: seq<byte>)
    requires 0 <= v < 0x1_0000_0000_0000
    ensures |r| == 6
  {
    U16(v / 0x1_0000_0000) + U32(v % 0x1_0000_0000)
  }

  function Get16(a: byte, b: byte): (v: u16)
    ensures U16(v) == [a, b]
  {
    var hi: int := a;
    256 * hi + b
  }

  function Get32(a: byte, b: byte, c: byte, d: byte): (v: u32)
  {
    var hi: int := Get16(a, b);
    0x1_0000 * hi + Get16(c, d)
  }

  lemma Get16Inverts(v: u16)
    ensures var s := U16(v); Get16(s[0], s[1]) == v
  {
  }

  lemma Get32Inverts(v: u32)
    ensures var s := U32(v); Get32(s[0], s[1], s[2], s[3]) == v
  {
    var s, hi, lo := U32(v), v / 0x1_0000, v % 0x1_0000;
    assert [s[0], s[1]] == U16(hi) && [s[2], s[3]] == U16(lo);
    Get16Inverts(hi);
    Get16Inverts(lo);
  }

  lemma Get32Bytes(a: byte, b: byte, c: byte, d: byte)
    ensures U32(Get32(a, b, c, d)) == [a, b, c, d]
  {
    var hi: int, lo: int := Get16(a, b), Get16(c, d);
    Halves16(hi, lo);
    hide Get16, U16;
    assert Get32(a, b, c, d) as int == 0x1_0000 * hi + lo;
  }

  lemma Halves16(hi: int, lo: int)
    requires 0 <= lo < 0x1_0000
    ensures (0x1_0000 * hi + lo) / 0x1_0000 == hi && (0x1_0000 * hi + lo) % 0x1_0000 == lo
  {
  }

  /** The number that bytes stand for, the highest first (network order). */
  function Number(b: seq<byte>): (n: nat)
  {
    if b == [] then 0
    else
      var low: int := b[|b| - 1];
      256 * Number(b[..|b| - 1]) + low
  }

  lemma Number2(a: byte, b: byte)
    ensures var hi: int, lo: int := a, b; Number([a, b]) == 256 * hi + lo
  {
    assert [a, b][..1] == [a] && [a][..0] == [];
    assert Number([a]) == a;
  }

  lemma {:induction false} NumberConcat(a: seq<byte>, b: seq<byte>)
    requires |b| == 2
    ensures Number(a + b) == 0x1_0000 * Number(a) + Number(b)
  {
    Number2(b[0], b[1]);
    assert b == [b[0], b[1]];
    var c := a + b;
    assert c[..|c| - 1] == a + [b[0]] && (a + [b[0]])[..|a|] == a;
  }

  /** Integers are written in network order. */
  lemma NumberU16(v: u16)
    ensures Number(U16(v)) == v
  {
    Number2(v / 256, v % 256);
  }

  lemma NumberU32(v: u32)
    ensures Number(U32(v)) == v
  {
    hide Number;
    NumberU16(v / 0x1_0000);
    NumberU16(v % 0x1_0000);
    NumberConcat(U16(v / 0x1_0000), U16(v % 0x1_0000));
  }

  lemma NumberU48(v: int)
    requires 0 <= v < 0x1_0000_0000_0000
    ensures Number(U48(v)) == v
  {
    hide Number;
    var hi, mid, lo := v / 0x1_0000_0000, v % 0x1_0000_0000 / 0x1_0000, v % 0x1_0000;
    assert v % 0x1_0000_0000 % 0x1_0000 == lo;
    assert U48(v) == U16(hi) + U16(mid) + U16(lo);
    NumberU16(hi);
    NumberU16(mid);
    NumberU16(lo);
    NumberConcat(U16(hi), U16(mid));
    NumberConcat(U16(hi) + U16(mid), U16(lo));
  }

  lemma CopyStep(before: seq<byte>, at: nat, src: seq<byte>, n: nat)
    requires at + |src| <= |before| && n < |src|
    ensures (before[..at] + src[..n] + before[at + n..])[at + n := src[n]]
         == before[..at] + src[..n + 1] + before[at + n + 1..]
  {
  }

  /** memcpy and std::copy into an array. */
  method CopyIn(dst: array<byte>, at: nat, src: seq<byte>)
    requires at + |src| <= dst.Length
    modifies dst
    ensures dst[..] == old(dst[..at]) + src + old(dst[at + |src|..])
  {
    var n := 0;
    ghost var before := dst[..];
    while n < |src|
      invariant n <= |src|
      invariant dst[..] == before[..at] + src[..n] + before[at + n..]
    {
      CopyStep(before, at, src, n);
      dst[at + n] := src[n];
      n := n + 1;
    }
    assert src[..n] == src;
  }
}
