/** MD5Summer: a message digest fed piece by piece. The compression of one 64-byte block
    (md5_process) is a parameter, so everything here holds for every compression function. */
module Md5 {
  import opened Bytes

  datatype State = State(a: u32, b: u32, c: u32, d: u32)

  type Compress = (State, seq<byte>) -> State

  const INITIAL: State := State(0x67452301, 0xEFCDAB89, 0x98BADCFE, 0x10325476)

  const TWO32: nat := 0x1_0000_0000
  const TWO64: nat := 0x1_0000_0000_0000_0000

  /** The state after the first k blocks of m. */
  function Fold(f: Compress, m: seq<byte>, k: nat): (s: State)
    requires 64 * k <= |m|
  {
    if k == 0 then INITIAL else f(Fold(f, m, k - 1), m[64 * (k - 1)..64 * k])
  }

  lemma {:induction false} FoldPrefix(f: Compress, m: seq<byte>, more: seq<byte>, k: nat)
    requires 64 * k <= |m|
    ensures Fold(f, m + more, k) == Fold(f, m, k)
  {
    if k > 0 {
      FoldPrefix(f, m, more, k - 1);
      assert (m + more)[64 * (k - 1)..64 * k] == m[64 * (k - 1)..64 * k];
    }
  }

  /** PUT_UINT32: the four bytes of a word, least significant first. */
  function Little32(v: u32): (r: seq<byte>)
    ensures |r| == 4
  {
    [v % 256, v / 256 % 256, v / 0x1_0000 % 256, v / 0x100_0000]
  }

  function Zeros(n: nat): (r: seq<byte>)
    ensures |r| == n && forall i :: 0 <= i < n ==> r[i] == 0
  {
    seq(n, i => 0)
  }

  /** Section 3.1 of RFC 1321: a one bit, then zero bits until the length is 56 modulo 64 bytes. */
  function Padding(n: nat): (r: seq<byte>)
    ensures 1 <= |r| <= 64 && (n + |r|) % 64 == 56
  {
    [0x80] + Zeros((55 - n % 64) % 64)
  }

  /** Section 3.2: the length in bits modulo 2^64, low word first. */
  function Length64(n: nat): (r: seq<byte>)
    ensures |r| == 8
  {
    var bits := 8 * n % TWO64;
    Little32(bits % TWO32) + Little32(bits / TWO32)
  }

  lemma Mod56(n: nat)
    requires n % 64 == 56
    ensures (n + 8) % 64 == 0
  {
  }

  function Padded(m: seq<byte>): (r: seq<byte>)
    ensures |r| % 64 == 0
  {
    Mod56(|m| + |Padding(|m|)|);
    m + Padding(|m|) + Length64(|m|)
  }

  function Output(s: State): (r: seq<byte>)
    ensures |r| == 16
  {
    Little32(s.a) + Little32(s.b) + Little32(s.c) + Little32(s.d)
  }

  /** The digest of a whole message at once. */
  function Digest(f: Compress, m: seq<byte>): (r: seq<byte>)
    ensures |r| == 16
  {
    Output(Fold(f, Padded(m), |Padded(m)| / 64))
  }

  // ---- the padding and the start state in numbers ----

  /** The number whose bytes these are, lowest first. */
  function LowFirst(bs: seq<byte>): (r: nat)
  {
    if bs == [] then 0 else bs[0] as nat + 256 * LowFirst(bs[1..])
  }

  lemma LowFirstStep(b: byte, rest: seq<byte>)
    ensures LowFirst([b] + rest) == b as nat + 256 * LowFirst(rest)
  {
    assert ([b] + rest)[1..] == rest;
  }

  lemma LowFirstWord(v: u32, rest: seq<byte>)
    ensures LowFirst(Little32(v) + rest) == v + TWO32 * LowFirst(rest)
  {
    var a, b, c, d := v % 256, v / 256 % 256, v / 0x1_0000 % 256, v / 0x100_0000;
    LowFirstStep(a, [b] + ([c] + ([d] + rest)));
    LowFirstStep(b, [c] + ([d] + rest));
    LowFirstStep(c, [d] + rest);
    LowFirstStep(d, rest);
    assert Little32(v) + rest == [a] + ([b] + ([c] + ([d] + rest)));
    WordBytes(v);
  }

  lemma WordBytes(v: u32)
    ensures v == v % 256 + 256 * (v / 256 % 256) + 0x1_0000 * (v / 0x1_0000 % 256) + 0x100_0000 * (v / 0x100_0000)
  {
  }

  /** The padded message is whole blocks: the message, a byte 0x80, at most 63 zero bytes, and the message's
      length in bits modulo 2^64 in eight bytes, lowest first. */
  lemma PaddedIs(m: seq<byte>)
    ensures
      var p := Padded(m);
      && |p| % 64 == 0 && |m| + 9 <= |p| <= |m| + 72
      && m == p[..|m|] && p[|m|] == 0x80 && (forall i :: |m| < i < |p| - 8 ==> p[i] == 0)
      && LowFirst(p[|p| - 8..]) == 8 * |m| % 0x1_0000_0000_0000_0000
  {
    var n := |m|;
    LengthIs(n);
    hide Length64, LowFirst;
    var p := Padded(m);
    assert p[|p| - 8..] == Length64(n);
  }

  lemma LengthIs(n: nat)
    ensures LowFirst(Length64(n)) == 8 * n % TWO64
  {
    hide Little32, LowFirst;
    var bits := 8 * n % TWO64;
    LowFirstWord(bits % TWO32, Little32(bits / TWO32));
    LowFirstWord(bits / TWO32, []);
    assert Little32(bits / TWO32) + [] == Little32(bits / TWO32);
    assert LowFirst([]) == 0 by {
      LowFirstEmpty();
    }
  }

  lemma LowFirstEmpty()
    ensures LowFirst([]) == 0
  {
  }

  /** Section 3.3 of RFC 1321: the start state, its bytes lowest first; and nothing fed, nothing compressed. */
  lemma StartState(f: Compress, m: seq<byte>)
    ensures Output(Fold(f, m, 0))
      == [0x01, 0x23, 0x45, 0x67, 0x89, 0xab, 0xcd, 0xef, 0xfe, 0xdc, 0xba, 0x98, 0x76, 0x54, 0x32, 0x10]
  {
  }

  /** The 64-bit byte count in two words. */
  predicate Totals(n: nat, t0: u32, t1: u32)
  {
    t0 == n % TWO32 && t1 == n / TWO32 % TWO32
  }

  lemma TotalsAdd(n: nat, t0: u32, t1: u32, length: nat)
    requires length < TWO32 && Totals(n, t0, t1)
    ensures var t := (t0 + length) % TWO32;
            Totals(n + length, t, if t < length then (t1 + 1) % TWO32 else t1)
  {
    var q, r := n / TWO32, n % TWO32;
    assert n == q * TWO32 + r;
    if r + length >= TWO32 {
      Quotient(n + length, q + 1, r + length - TWO32);
      assert (q + 1) % TWO32 == (q % TWO32 + 1) % TWO32;
    } else {
      Quotient(n + length, q, r + length);
    }
  }

  lemma Quotient(n: nat, q: nat, r: nat)
    requires n == q * TWO32 + r && r < TWO32
    ensures n / TWO32 == q && n % TWO32 == r
  {
  }

  lemma LowBits(n: nat, t0: u32, t1: u32)
    requires Totals(n, t0, t1)
    ensures t0 % 64 == n % 64
  {
  }

  /** k blocks of m are in the state, and the next |head| bytes wait in the buffer. */
  ghost predicate Progress(f: Compress, m: seq<byte>, k: nat, head: seq<byte>, state: State)
  {
    && |head| < 64 && 64 * k + |head| <= |m|
    && state == Fold(f, m, k) && head == m[64 * k..64 * k + |head|]
  }

  /** Everything of m is in the state or in the buffer. */
  ghost predicate Absorbed(f: Compress, m: seq<byte>, head: seq<byte>, state: State)
  {
    Progress(f, m, |m| / 64, head, state) && |head| == |m| % 64
  }

  lemma ProgressMore(f: Compress, m: seq<byte>, head: seq<byte>, state: State, more: seq<byte>)
    requires Absorbed(f, m, head, state)
    ensures Progress(f, m + more, |m| / 64, head, state) && 64 * (|m| / 64) + |head| == |m| && |head| == |m| % 64
  {
    FoldPrefix(f, m, more, |m| / 64);
    hide Fold;
    var k := |m| / 64;
    assert (m + more)[64 * k..64 * k + |head|] == m[64 * k..64 * k + |head|];
  }

  /** A whole block: the waiting bytes and the next ones. */
  lemma ProgressBlock(f: Compress, fed: seq<byte>, input: seq<byte>, k: nat, head: seq<byte>, state: State, p: nat,
                      p': nat)
    requires Progress(f, fed + input, k, head, state) && 64 * k + |head| == |fed| + p
    requires p <= p' <= |input| && |head| + p' - p == 64
    ensures Progress(f, fed + input, k + 1, [], f(state, head + input[p..p']))
  {
    var all := fed + input;
    assert all[64 * k..64 * (k + 1)] == all[64 * k..64 * k + |head|] + all[64 * k + |head|..64 * (k + 1)];
    assert all[64 * k + |head|..64 * (k + 1)] == input[p..p'];
  }

  lemma ProgressRest(f: Compress, fed: seq<byte>, input: seq<byte>, k: nat, head: seq<byte>, state: State, p: nat)
    requires Progress(f, fed + input, k, head, state) && 64 * k + |head| == |fed| + p
    requires p <= |input| && |head| + |input| - p < 64
    ensures Absorbed(f, fed + input, head + input[p..], state)
  {
    hide Fold;
    var all := fed + input;
    assert |all| == 64 * k + (|head| + |input| - p);
    assert all[64 * k..] == all[64 * k..64 * k + |head|] + all[64 * k + |head|..];
    assert all[64 * k + |head|..] == input[p..];
  }

  class MD5Summer {
    const f: Compress
    var total0: u32
    var total1: u32
    var state: State
    const buffer: array<byte>

    /** Everything fed so far. */
    ghost var fed: seq<byte>

    ghost predicate Valid()
      reads this, buffer
    {
      && buffer.Length == 64
      && Totals(|fed|, total0, total1)
      && Absorbed(f, fed, buffer[..|fed| % 64], state)
    }

    constructor (f: Compress)
      ensures Valid() && fed == [] && this.f == f && fresh(buffer)
    {
      this.f := f;
      total0, total1, state := 0, 0, INITIAL;
      buffer := new byte[64];
      fed := [];
    }

    /** ctx2 = d_context */
    constructor Copy(other: MD5Summer)
      requires other.Valid()
      ensures Valid() && fed == other.fed && f == other.f && fresh(buffer)
    {
      f := other.f;
      total0, total1, state := other.total0, other.total1, other.state;
      buffer := new byte[64](i requires 0 <= i < 64 && other.buffer.Length == 64 reads other.buffer => other.buffer[i]);
      fed := other.fed;
      new;
      assert buffer[..] == other.buffer[..];
      assert buffer[..|fed| % 64] == buffer[..][..|fed| % 64];
      assert other.buffer[..|fed| % 64] == other.buffer[..][..|fed| % 64];
    }
  
    /** md5_update: whole blocks are compressed at once, the rest waits in the buffer. Lengths are
        32 bits wide. */
    method Feed(input: seq<byte>)
      requires Valid() && |input| < TWO32
      modifies this, buffer
      ensures Valid() && fed == old(fed) + input
    {
      hide Fold, Totals, Progress, Absorbed;
      if input == [] {
        assert fed + [] == fed;
        return;
      }
      ghost var before := fed;
      ghost var k := |before| / 64;
      LowBits(|before|, total0, total1);
      TotalsAdd(|before|, total0, total1, |input|);
      ProgressMore(f, before, buffer[..|before| % 64], state, input);
      var left := total0 % 64;
      var fill := 64 - left;
      total0 := (total0 as int + |input|) % TWO32;
      if total0 < |input| {
        total1 := (total1 as int + 1) % TWO32;
      }
      var p := 0;
      if left != 0 && |input| >= fill {
        CompleteBlock(before, input, left, k);
        p, left, k := fill, 0, k + 1;
        assert buffer[..0] == [];
      }
      while |input| - p >= 64
        invariant 0 <= p <= |input| && 0 <= left < 64 && 64 * k + left == |before| + p
        invariant left != 0 ==> |input| - p < 64 - left
        invariant Progress(f, before + input, k, buffer[..left], state)
        invariant Totals(|before| + |input|, total0, total1)
      {
        assert left == 0;
        ProgressBlock(f, before, input, k, buffer[..left], state, p, p + 64);
        assert buffer[..left] + input[p..p + 64] == input[p..p + 64];
        state := f(state, input[p..p + 64]);
        p, k := p + 64, k + 1;
      }
      ghost var head := buffer[..left];
      ProgressRest(f, before, input, k, head, state, p);
      if p < |input| {
        CopyIn(buffer, left, input[p..]);
      }
      fed := before + input;
      assert head + input[p..] == buffer[..][..left + |input| - p];
      AbsorbedLength(f, fed, head + input[p..], state);
    }

    /** The first block is made of the waiting bytes and the beginning of the input. */
    method CompleteBlock(ghost before: seq<byte>, input: seq<byte>, left: nat, ghost k: nat)
      requires buffer.Length == 64 && 0 < left < 64 && |input| >= 64 - left && 64 * k + left == |before|
      requires Progress(f, before + input, k, buffer[..left], state)
      modifies this`state, buffer
      ensures Progress(f, before + input, k + 1, [], state)
    {
      hide Progress;
      var fill := 64 - left;
      ghost var head := buffer[..left];
      ProgressBlock(f, before, input, k, head, state, 0, fill);
      CopyIn(buffer, left, input[..fill]);
      assert buffer[..] == head + input[0..fill];
      state := f(state, buffer[..]);
    }

    /** The digest of everything fed, computed on a copy. */
    method Get() returns (digest: seq<byte>)
      requires Valid()
      ensures digest == Digest(f, fed)
    {
      hide Fold, Little32, Output, Digest, Absorbed;
      var ctx2 := new MD5Summer.Copy(this);
      digest := ctx2.Finish();
    }

    /** md5_finish: feeds the padding and the length, and reads the state out. */
    method Finish() returns (digest: seq<byte>)
      requires Valid()
      modifies this, buffer
      ensures digest == Digest(f, old(fed))
    {
      hide Fold, Little32, Output, Totals, Progress, Absorbed, Digest, Length64;
      ghost var n := |fed|;
      var high := (total0 / 0x2000_0000 + total1 * 8) % TWO32;
      var low := total0 * 8 % TWO32;
      LengthWords(n, total0, total1);
      var msglen := Little32(low) + Little32(high);
      LowBits(n, total0, total1);
      FinishPadding(n);
      var last := total0 % 64;
      var padn := if last < 56 then 56 - last else 120 - last;
      Feed([0x80] + Zeros(padn - 1));
      Feed(msglen);
      assert fed == old(fed) + Padding(n) + Length64(n);
      FinishDigest(f, old(fed), buffer[..|fed| % 64], state);
      digest := Little32(state.a) + Little32(state.b) + Little32(state.c) + Little32(state.d);
    }
  }

  lemma AbsorbedLength(f: Compress, m: seq<byte>, head: seq<byte>, state: State)
    requires Absorbed(f, m, head, state)
    ensures |head| == |m| % 64
  {
  }

  /** The padding length computed from the low six bits is the one section 3.1 asks for. */
  lemma FinishPadding(n: nat)
    ensures var last := n % 64;
            Padding(n) == [0x80] + Zeros((if last < 56 then 56 - last else 120 - last) - 1)
  {
  }

  lemma FinishDigest(f: Compress, m: seq<byte>, head: seq<byte>, s: State)
    requires Absorbed(f, m + Padding(|m|) + Length64(|m|), head, s)
    ensures Digest(f, m) == Little32(s.a) + Little32(s.b) + Little32(s.c) + Little32(s.d)
  {
    hide Fold, Little32, Padding, Length64;
  }

  /** The two words of the bit count; shifted operands share no bits, so or is addition. */
  lemma LengthWords(n: nat, t0: u32, t1: u32)
    requires Totals(n, t0, t1)
    ensures Length64(n) == Little32(t0 * 8 % TWO32) + Little32((t0 / 0x2000_0000 + t1 * 8) % TWO32)
  {
    hide Little32;
    var q := n / TWO32;
    var k := q / TWO32;
    assert n == TWO64 * k + TWO32 * t1 + t0;
    var hi, lo := t0 / 0x2000_0000, t0 % 0x2000_0000;
    assert 8 * t0 == TWO32 * hi + 8 * lo;
    var s := hi + 8 * t1;
    var carry, s' := s / TWO32, s % TWO32;
    assert 8 * n == TWO64 * (8 * k + carry) + (TWO32 * s' + 8 * lo);
    Residue64(8 * n, 8 * k + carry, TWO32 * s' + 8 * lo);
    Quotient(TWO32 * s' + 8 * lo, s', 8 * lo);
    Quotient(8 * t0, hi, 8 * lo);
  }

  lemma Residue64(n: nat, q: nat, r: nat)
    requires n == TWO64 * q + r && r < TWO64
    ensures n % TWO64 == r
  {
  }

  function Concat(chunks: seq<seq<byte>>, n: nat): (m: seq<byte>)
    requires n <= |chunks|
  {
    if n == 0 then [] else Concat(chunks, n - 1) + chunks[n - 1]
  }

  /** However a message is cut into chunks, and however often the digest is asked for on the way,
      the final digest is the one-shot digest of the message. */
  method DigestOfChunks(f: Compress, chunks: seq<seq<byte>>, askEachTime: bool) returns (digest: seq<byte>)
    requires forall i :: 0 <= i < |chunks| ==> |chunks[i]| < TWO32
    ensures digest == Digest(f, Concat(chunks, |chunks|))
  {
    hide Digest, Absorbed, Totals;
    var md5 := new MD5Summer(f);
    var n := 0;
    while n < |chunks|
      invariant n <= |chunks| && md5.Valid() && fresh(md5) && fresh(md5.buffer) && md5.f == f
      invariant md5.fed == Concat(chunks, n)
    {
      md5.Feed(chunks[n]);
      if askEachTime {
        var running := md5.Get();
      }
      n := n + 1;
    }
    digest := md5.Get();
  }
}
