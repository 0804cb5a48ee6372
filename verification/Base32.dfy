/** base32 with the extended hex alphabet, section 7 of RFC 4648: eight characters carry the bits of five
    bytes, from the highest down. */
module Base32 {
  import opened Bits
  import opened Bytes
  import opened Lexicographic

  const PAD: byte := 61

  /** The k-th bit of a string, the first being the highest of its first byte; 0 beyond its end. */
  function BitOf(s: seq<byte>, k: nat): (b: nat)
    ensures b <= 1
  {
    if k / 8 < |s| then Bit(s[k / 8], 7 - k % 8) else 0
  }

  // ---- extract_bits ----

  /** A byte read through a pointer into the string: its terminating NUL at the end, anything beyond. */
  function At(s: seq<byte>, k: nat, junk: byte): (c: byte)
  {
    if k < |s| then s[k] else if k == |s| then 0 else junk
  }

  /** Three bytes as one number. */
  function Three(cl: byte, cc: byte, cr: byte): (x: nat)
  {
    Or(Double(Or(Double(cl, 8), cc, 24), 8), cr, 24)
  }

  function ExtractBits(s: seq<byte>, start: nat, junk: byte): (x: nat)
    ensures x < 32
  {
    Pow2Values();
    Low(Half(Three(At(s, start / 8, junk), At(s, start / 8 + 1, junk), At(s, start / 8 + 2, junk)), 19 - start % 8), 5)
  }

  lemma ThreeBits(cl: byte, cc: byte, cr: byte, k: nat)
    requires 8 <= k < 24
    ensures Bit(Three(cl, cc, cr), k) == if k < 16 then Bit(cc, k - 8) else Bit(cl, k - 16)
  {
    hide Or, Double, Bit;
    Pow2Values();
    BitOr(Double(Or(Double(cl, 8), cc, 24), 8), cr, 24, k);
    BitDouble(Or(Double(cl, 8), cc, 24), 8, k);
    BitOr(Double(cl, 8), cc, 24, k - 8);
    BitDouble(cl, 8, k - 8);
    BitBeyond(cr, 8, k);
    if k >= 16 {
      BitBeyond(cc, 8, k - 8);
    }
  }

  /** The five bits from start on, highest first, whatever lies beyond the string. */
  lemma ExtractIs(s: seq<byte>, start: nat, junk: byte, t: nat)
    requires start / 8 < |s| && t < 5
    ensures Bit(ExtractBits(s, start, junk), 4 - t) == BitOf(s, start + t)
  {
    hide Half, Low, Bit, Three;
    var q, r := start / 8, start % 8;
    var x := Three(At(s, q, junk), At(s, q + 1, junk), At(s, q + 2, junk));
    BitLow(Half(x, 19 - r), 5, 4 - t);
    BitHalf(x, 19 - r, 4 - t);
    ThreeBits(At(s, q, junk), At(s, q + 1, junk), At(s, q + 2, junk), 23 - r - t);
    if r + t < 8 {
      assert (start + t) / 8 == q && (start + t) % 8 == r + t;
    } else {
      assert (start + t) / 8 == q + 1 && (start + t) % 8 == r + t - 8;
      BitNone(15 - r - t);
    }
  }

  // ---- the alphabet ----

  function Digit(v: nat): (c: byte)
    requires v < 32
  {
    if v < 10 then 48 + v else 55 + v
  }

  /** Table 4 of RFC 4648: 0 to 9 and A to V. */
  lemma Alphabet()
    ensures seq(32, i requires 0 <= i < 32 => Digit(i))
      == [48, 49, 50, 51, 52, 53, 54, 55, 56, 57] + [65, 66, 67, 68, 69, 70, 71, 72, 73, 74, 75]
         + [76, 77, 78, 79, 80, 81, 82, 83, 84, 85, 86]
  {
  }

  /** unbase32hex; None for characters it rejects and for the padding. */
  function Value(c: byte): (v: Option<nat>)
    ensures v.Some? ==> v.value < 36
  {
    if 48 <= c <= 57 then Some(c - 48)
    else if 97 <= c <= 122 then Some(c - 87)
    else if 65 <= c <= 90 then Some(c - 55)
    else None
  }

  lemma DigitValue(v: nat)
    requires v < 32
    ensures Value(Digit(v)) == Some(v) && Value(LowerByte(Digit(v))) == Some(v)
  {
  }

  lemma DigitOrder(v: nat, w: nat)
    requires v < w < 32
    ensures Digit(v) < Digit(w) && LowerByte(Digit(v)) < LowerByte(Digit(w)) && Digit(v) != PAD
  {
  }

  // ---- encoding ----

  /** Characters that carry bits, and all characters, for n bytes. */
  function Chars(n: nat): (m: nat)
  {
    (8 * n + 4) / 5
  }

  function Total(n: nat): (m: nat)
  {
    8 * ((n + 4) / 5)
  }

  predicate BitAgrees(s: seq<byte>, k: nat, v: nat, t: nat)
    requires t < 5
  {
    Bit(v, 4 - t) == BitOf(s, k + t)
  }

  /** v is the number made of the five bits from position k on. */
  predicate Fives(s: seq<byte>, k: nat, v: nat)
  {
    v < 32 && forall t :: 0 <= t < 5 ==> BitAgrees(s, k, v, t)
  }

  /** The i-th character stands for the i-th five bits. */
  ghost predicate CharOk(s: seq<byte>, i: nat, c: byte)
  {
    exists v :: v < 32 && c == Digit(v) && Fives(s, 5 * i, v)
  }

  /** r is the base32hex form of s: a digit for every five bits, the last group filled with zero bits,
      then padding. */
  ghost predicate Encodes(s: seq<byte>, r: seq<byte>)
  {
    && |r| == Total(|s|)
    && (forall i :: 0 <= i < Chars(|s|) && i < |r| ==> CharOk(s, i, r[i]))
    && (forall i :: Chars(|s|) <= i < |r| ==> r[i] == PAD)
  }

  /** How much padding ends a group of which `todo` bytes are left. */
  function Stuffing(todo: nat): (n: nat)
    ensures n <= 6
  {
    if todo == 1 then 6 else if todo == 2 then 4 else if todo == 3 then 3 else if todo == 4 then 1 else 0
  }

  lemma Sizes(n: nat, offset: nat)
    requires offset % 5 == 0 && offset < n
    ensures Total(offset) == 8 * (offset / 5) == Chars(offset)
    ensures n - offset >= 5 ==> Chars(n) >= 8 * (offset / 5) + 8
    ensures n - offset < 5 ==>
      Chars(n) == 8 * (offset / 5) + 8 - Stuffing(n - offset) && Total(n) == 8 * (offset / 5) + 8
  {
  }

  /** The first n characters are right. */
  ghost predicate EncodedSoFar(s: seq<byte>, r: seq<byte>)
  {
    && (forall i :: 0 <= i < |r| && i < Chars(|s|) ==> CharOk(s, i, r[i]))
    && (forall i :: Chars(|s|) <= i < |r| ==> r[i] == PAD)
  }

  lemma SoFarSnoc(s: seq<byte>, r: seq<byte>, c: byte, v: nat)
    requires EncodedSoFar(s, r)
    requires if |r| < Chars(|s|) then v < 32 && c == Digit(v) && Fives(s, 5 * |r|, v) else c == PAD
    ensures EncodedSoFar(s, r + [c])
  {
    hide Digit, Fives, Chars;
    if |r| < Chars(|s|) {
      assert CharOk(s, |r|, c);
    }
    hide CharOk;
  }

  lemma ExtractFives(s: seq<byte>, start: nat, junk: byte)
    requires start / 8 < |s|
    ensures Fives(s, start, ExtractBits(s, start, junk))
  {
    hide ExtractBits, BitOf, Bit;
    forall t | 0 <= t < 5 ensures BitAgrees(s, start, ExtractBits(s, start, junk), t) {
      ExtractIs(s, start, junk, t);
    }
  }

  /** The bits of a group of five bytes are those of the string, further on. */
  lemma GroupFives(s: seq<byte>, offset: nat, n: nat, v: nat)
    requires offset % 5 == 0 && offset <= |s| && Fives(s[offset..], 5 * n, v)
    ensures Fives(s, 5 * (8 * (offset / 5) + n), v)
  {
    hide Bit;
    var k := 5 * (8 * (offset / 5) + n);
    forall t | 0 <= t < 5 ensures BitAgrees(s, k, v, t) {
      assert BitAgrees(s[offset..], 5 * n, v, t);
      Shifted(s, offset, 5 * n + t);
      assert 5 * (8 * (offset / 5) + n) + t == 8 * offset + (5 * n + t);
    }
  }

  lemma Shifted(s: seq<byte>, offset: nat, k: nat)
    requires offset <= |s|
    ensures BitOf(s, 8 * offset + k) == BitOf(s[offset..], k)
  {
    hide Bit;
    assert (8 * offset + k) / 8 == offset + k / 8 && (8 * offset + k) % 8 == k % 8;
  }

  method ToBase32Hex(input: seq<byte>, junk: byte) returns (ret: seq<byte>)
    ensures Encodes(input, ret)
  {
    hide ExtractBits, Digit, Fives, EncodedSoFar, Stuffing, Chars;
    ret := [];
    var offset := 0;
    NothingYet(input);
    while offset < |input|
      invariant offset % 5 == 0 && |ret| == 8 * (offset / 5) && (offset >= |input| ==> |ret| == Total(|input|))
      invariant EncodedSoFar(input, ret)
      decreases |input| - offset
    {
      var todo := |input| - offset;
      var stuffing := Stuffing(todo);
      Sizes(|input|, offset);
      StuffingIs(todo);
      var n := 0;
      while n < 8 - stuffing
        invariant n <= 8 - stuffing && |ret| == 8 * (offset / 5) + n && EncodedSoFar(input, ret)
      {
        var v := ExtractBits(input[offset..], 5 * n, junk);
        StuffingRoom(todo, n);
        ExtractFives(input[offset..], 5 * n, junk);
        GroupFives(input, offset, n, v);
        SoFarSnoc(input, ret, Digit(v), v);
        ret := ret + [Digit(v)];
        n := n + 1;
      }
      n := 0;
      while n < stuffing
        invariant n <= stuffing && |ret| == 8 * (offset / 5) + 8 - stuffing + n && EncodedSoFar(input, ret)
      {
        SoFarSnoc(input, ret, PAD, 0);
        ret := ret + [PAD];
        n := n + 1;
      }
      offset := offset + 5;
    }
    AllEncoded(input, ret);
  }

  lemma NothingYet(s: seq<byte>)
    ensures EncodedSoFar(s, [])
  {
  }

  lemma StuffingIs(todo: nat)
    ensures todo >= 5 ==> Stuffing(todo) == 0
  {
  }

  lemma StuffingRoom(todo: nat, n: nat)
    requires todo > 0 && n < 8 - Stuffing(todo)
    ensures 5 * n / 8 < todo
  {
  }

  lemma AllEncoded(s: seq<byte>, r: seq<byte>)
    requires EncodedSoFar(s, r) && |r| == Total(|s|)
    ensures Encodes(s, r)
  {
    hide CharOk;
    assert Chars(|s|) <= Total(|s|);
  }

  // ---- set_bits ----

  /** s[q] |= c. */
  function OrByte(s: seq<byte>, q: nat, c: nat): (r: seq<byte>)
    requires q < |s|
    ensures |r| == |s|
  {
    Pow2Values();
    s[q := Or(s[q], c, 8)]
  }

  function ShiftOf(start: nat): (n: nat)
    ensures n < 8
  {
    (8 - (start + 5) % 8) % 8
  }

  /** set_bits of five bits; it touches three bytes only for longer ranges. */
  function SetBits(s: seq<byte>, x: nat, start: nat): (r: seq<byte>)
    requires start / 8 < |s| && (ShiftOf(start) + 5 > 8 ==> start / 8 + 1 < |s|)
    ensures |r| == |s|
  {
    var shift := ShiftOf(start);
    var y := Double(x, shift);
    var cc, cr := Low(Half(y, 8), 8), Low(y, 8);
    if shift + 5 > 8 then OrByte(OrByte(s, start / 8, cc), start / 8 + 1, cr)
    else OrByte(s, start / 8, cr)
  }

  lemma OrByteIs(s: seq<byte>, q: nat, c: nat, k: nat)
    requires q < |s| && k < 8 * |s|
    ensures BitOf(OrByte(s, q, c), k)
         == if k / 8 == q && BitOf(s, k) + Bit(c, 7 - k % 8) > 0 then 1 else if k / 8 == q then 0 else BitOf(s, k)
  {
    hide Or, Bit;
    Pow2Values();
    if k / 8 == q {
      BitOr(s[q], c, 8, 7 - k % 8);
    }
  }

  /** The bit of a shifted number of six bits. */
  lemma ShiftedBit(x: nat, shift: nat, j: nat)
    requires x < 64
    ensures Bit(Double(x, shift), j) == if shift <= j < shift + 6 then Bit(x, j - shift) else 0
  {
    hide Bit, Double;
    Pow2Values();
    assert Pow2(6) == 64;
    BitDouble(x, shift, j);
    if j >= shift + 6 {
      BitBeyond(x, 6, j - shift);
    }
  }

  function Either(a: nat, b: nat): (r: nat)
    ensures r <= 1
  {
    if a + b > 0 then 1 else 0
  }

  /** The bit of x that set_bits or-s in at k: five bits from start on, and a sixth just before them if it
      lies in the same byte. */
  function Entering(x: nat, start: nat, k: nat): (b: nat)
    ensures b <= 1
  {
    if start <= k < start + 5 || (k + 1 == start && start % 8 != 0) then Bit(x, start + 4 - k) else 0
  }

  /** The bits are or-ed in at their place and nothing else changes. */
  lemma SetBitsIs(s: seq<byte>, x: nat, start: nat, k: nat)
    requires start / 8 < |s| && (ShiftOf(start) + 5 > 8 ==> start / 8 + 1 < |s|) && x < 64 && k < 8 * |s|
    ensures BitOf(SetBits(s, x, start), k) == Either(BitOf(s, k), Entering(x, start, k))
  {
    hide Bit, Double, Half, Low, OrByte, BitOf;
    var shift, q, e := ShiftOf(start), start / 8, 7 - k % 8;
    var y := Double(x, shift);
    var cc, cr := Low(Half(y, 8), 8), Low(y, 8);
    BitLow(Half(y, 8), 8, e);
    BitHalf(y, 8, e);
    BitLow(y, 8, e);
    ShiftedBit(x, shift, 8 + e);
    ShiftedBit(x, shift, e);
    SmallBits(s, k);
    if shift + 5 > 8 {
      OrByteIs(s, q, cc, k);
      OrByteIs(OrByte(s, q, cc), q + 1, cr, k);
      SmallBits(OrByte(s, q, cc), k);
    } else {
      OrByteIs(s, q, cr, k);
    }
    Places(start, k);
  }

  lemma SmallBits(s: seq<byte>, k: nat)
    ensures BitOf(s, k) <= 1
  {
  }

  /** Where the bits fall. */
  lemma Places(start: nat, k: nat)
    ensures
      var shift, q, e := ShiftOf(start), start / 8, 7 - k % 8;
      if shift + 5 > 8 then
        && (k / 8 == q ==> start + 4 - k == 8 + e - shift)
        && (k / 8 == q + 1 ==> start + 4 - k == e - shift)
        && (start <= k + 1 && k < start + 5 ==> k / 8 == q || k / 8 == q + 1) && start % 8 >= 4
      else
        && (k / 8 == q ==> start + 4 - k == e - shift)
        && (start <= k < start + 5 ==> k / 8 == q) && (k + 1 == start && start % 8 != 0 ==> k / 8 == q)
        && (k / 8 == q ==> start <= k + start % 8) && shift == 3 - start % 8
  {
    var r := start % 8;
    var shift := ShiftOf(start);
    assert shift == if r < 4 then 3 - r else 11 - r;
  }

  // ---- decoding ----

  /** Where decoding stops: at padding, at a character that is no digit, or at the end. */
  function Stop(input: seq<byte>, i: nat): (n: nat)
    requires i <= |input|
    ensures i <= n <= |input| && (n < |input| ==> Value(input[n]).None?)
    ensures forall j :: i <= j < n ==> Value(input[j]).Some?
    decreases |input| - i
  {
    if i == |input| || Value(input[i]).None? then i else Stop(input, i + 1)
  }

  /** The characters before the n-th are digits or letters. */
  predicate Digits(input: seq<byte>, n: nat)
  {
    n <= |input| && forall i :: 0 <= i < n ==> Value(input[i]).Some?
  }

  /** The sixth bit of a letter from W to Z, or-ed into the last bit of the character before it. */
  function Spilled(input: seq<byte>, n: nat, i: nat): (b: nat)
    requires Digits(input, n)
    ensures b <= 1
  {
    if i + 1 < n && (i + 1) % 8 != 0 then Bit(Value(input[i + 1]).value, 5) else 0
  }

  /** The k-th bit that the first n characters carry; 0 after them. */
  function CarriedBit(input: seq<byte>, n: nat, k: nat): (b: nat)
    requires Digits(input, n)
  {
    if k >= 5 * n then 0
    else Either(Bit(Value(input[k / 5]).value, 4 - k % 5), if k % 5 == 4 then Spilled(input, n, k / 5) else 0)
  }

  ghost predicate Carries(input: seq<byte>, n: nat, r: seq<byte>)
    requires Digits(input, n)
  {
    forall k :: 0 <= k < 8 * |r| ==> BitOf(r, k) == CarriedBit(input, n, k)
  }

  function Blank(): (r: seq<byte>)
  {
    [0, 0, 0, 0, 0]
  }

  lemma BitOfConcat(a: seq<byte>, b: seq<byte>, k: nat)
    requires k < 8 * |a + b|
    ensures BitOf(a + b, k) == if k < 8 * |a| then BitOf(a, k) else BitOf(b, k - 8 * |a|)
  {
    hide Bit;
    if k >= 8 * |a| {
      assert k / 8 == |a| + (k - 8 * |a|) / 8 && k % 8 == (k - 8 * |a|) % 8;
    }
  }

  lemma CarriesStart(input: seq<byte>)
    ensures Digits(input, 0) && Carries(input, 0, [] + Blank())
  {
    hide Bit;
    forall k | 0 <= k < 40 ensures BitOf([] + Blank(), k) == 0 {
      BitNone(7 - k % 8);
    }
  }

  /** The bits carried by one more character. */
  lemma CarriedMore(input: seq<byte>, n: nat, k: nat)
    requires Digits(input, n + 1)
    ensures Digits(input, n)
    ensures CarriedBit(input, n + 1, k) == Either(CarriedBit(input, n, k),
        if 5 * n <= k < 5 * n + 5 || (k + 1 == 5 * n && n % 8 != 0)
        then Bit(Value(input[n]).value, 5 * n + 4 - k) else 0)
  {
    hide Bit, Value;
    if 5 * n <= k < 5 * n + 5 {
      assert k / 5 == n && 4 - k % 5 == 5 * n + 4 - k;
    } else if k + 1 == 5 * n {
      assert k / 5 == n - 1 && k % 5 == 4;
    } else if k < 5 * n {
      assert k % 5 == 4 ==> k / 5 + 1 < n;
    }
  }

  /** One more character enters the block. */
  lemma CarriesStep(input: seq<byte>, n: nat, ret: seq<byte>, block: seq<byte>)
    requires Digits(input, n + 1) && |ret| == 5 * (n / 8) && |block| == 5
    requires Digits(input, n) && Carries(input, n, ret + block)
    ensures Carries(input, n + 1, ret + SetBits(block, Value(input[n]).value, 5 * (n % 8)))
  {
    hide Bit, SetBits, BitOf, Value, CarriedBit, Either, Entering;
    var x, start := Value(input[n]).value, 5 * (n % 8);
    RoomInBlock(n);
    var after := SetBits(block, x, start);
    forall k | 0 <= k < 8 * |ret + after| ensures BitOf(ret + after, k) == CarriedBit(input, n + 1, k) {
      BitOfConcat(ret, after, k);
      BitOfConcat(ret, block, k);
      assert BitOf(ret + block, k) == CarriedBit(input, n, k);
      CarriedMore(input, n, k);
      if k >= 8 * |ret| {
        SetBitsIs(block, x, start, k - 8 * |ret|);
        InBlock(x, n, |ret|, k);
      } else {
        BeforeBlock(input, n, |ret|, k);
      }
    }
  }

  /** In a block a character's bits have the places they have in the whole. */
  lemma InBlock(x: nat, n: nat, size: nat, k: nat)
    requires size == 5 * (n / 8) && k >= 8 * size
    ensures Entering(x, 5 * (n % 8), k - 8 * size)
         == if 5 * n <= k < 5 * n + 5 || (k + 1 == 5 * n && n % 8 != 0) then Bit(x, 5 * n + 4 - k) else 0
  {
    hide Bit;
    var r := n % 8;
    assert 8 * size + 5 * r == 5 * n;
    assert r == 0 || r == 1 || r == 2 || r == 3 || r == 4 || r == 5 || r == 6 || r == 7;
  }

  /** What a character carries does not reach back into an earlier block. */
  lemma BeforeBlock(input: seq<byte>, n: nat, size: nat, k: nat)
    requires Digits(input, n + 1) && size == 5 * (n / 8) && k < 8 * size
    ensures Digits(input, n) && CarriedBit(input, n + 1, k) == CarriedBit(input, n, k)
  {
    CarriedMore(input, n, k);
    hide Bit, Value;
    assert 8 * size + 5 * (n % 8) == 5 * n;
  }

  lemma RoomInBlock(n: nat)
    ensures 5 * (n % 8) / 8 < 5 && (ShiftOf(5 * (n % 8)) + 5 > 8 ==> 5 * (n % 8) / 8 + 1 < 5)
  {
    var r := n % 8;
    assert r == 0 || r == 1 || r == 2 || r == 3 || r == 4 || r == 5 || r == 6 || r == 7;
  }

  /** A full block moves to the output. */
  lemma CarriesFull(input: seq<byte>, n: nat, ret: seq<byte>)
    requires Digits(input, n) && n % 8 == 0 && |ret| == 5 * (n / 8) && Carries(input, n, ret)
    ensures Carries(input, n, ret + Blank())
  {
    hide Bit, BitOf, Value;
    forall k | 0 <= k < 8 * |ret + Blank()| ensures BitOf(ret + Blank(), k) == CarriedBit(input, n, k) {
      BitOfConcat(ret, Blank(), k);
      if k >= 8 * |ret| {
        BlankBit(k - 8 * |ret|);
      }
    }
  }

  lemma BlankBit(k: nat)
    ensures BitOf(Blank(), k) == 0
  {
    BitNone(7 - k % 8);
  }

  lemma CarriesPrefix(input: seq<byte>, n: nat, ret: seq<byte>, m: nat)
    requires Digits(input, n) && m <= |ret| && Carries(input, n, ret)
    ensures Carries(input, n, ret[..m])
  {
    hide Bit;
    forall k | 0 <= k < 8 * m ensures BitOf(ret[..m], k) == BitOf(ret, k) {
    }
  }

  /** After n characters, all of them digits or letters, the finished bytes and the block carry their bits. */
  ghost predicate Reading(input: seq<byte>, n: nat, ret: seq<byte>, block: seq<byte>)
  {
    && n <= Stop(input, 0) && Digits(input, n) && |ret| == 5 * (n / 8) && |block| == 5
    && Carries(input, n, ret + block)
  }

  lemma ReadingStart(input: seq<byte>)
    ensures Reading(input, 0, [], Blank())
  {
    hide Carries, Value;
    CarriesStart(input);
  }

  /** One turn of the loop: a character enters the block, and a full block is moved to the output. */
  lemma ReadingStep(input: seq<byte>, n: nat, ret: seq<byte>, block: seq<byte>)
    requires Reading(input, n, ret, block) && n < |input| && Value(input[n]).Some?
    ensures 5 * (n % 8) / 8 < 5 && (ShiftOf(5 * (n % 8)) + 5 > 8 ==> 5 * (n % 8) / 8 + 1 < 5)
    ensures var after := SetBits(block, Value(input[n]).value, 5 * (n % 8));
            if n % 8 == 7 then Reading(input, n + 1, ret + after, Blank()) else Reading(input, n + 1, ret, after)
  {
    hide Carries, Value, Stop, SetBits, ShiftOf;
    RoomInBlock(n);
    StopBeyond(input, n);
    CarriesStep(input, n, ret, block);
    if n % 8 == 7 {
      CarriesFull(input, n + 1, ret + SetBits(block, Value(input[n]).value, 5 * (n % 8)));
    }
  }

  lemma ReadingEnd(input: seq<byte>, n: nat, ret: seq<byte>, block: seq<byte>)
    requires Reading(input, n, ret, block) && (n < |input| ==> Value(input[n]).None?)
    ensures n == Stop(input, 0) && |block| == 5
    ensures var all := ret + block[..n % 8 * 5 / 8];
            |all| == 5 * n / 8 && Digits(input, n) && Carries(input, n, all)
  {
    hide Carries, Value, Stop;
    StopHere(input, n);
    var m := |ret| + n % 8 * 5 / 8;
    CarriesPrefix(input, n, ret + block, m);
    assert (ret + block)[..m] == ret + block[..n % 8 * 5 / 8];
  }

  /** The bytes are the bits carried by the characters before the first other one, cut to whole bytes. */
  method FromBase32Hex(input: seq<byte>) returns (ret: seq<byte>)
    ensures |ret| == 5 * Stop(input, 0) / 8
    ensures Digits(input, Stop(input, 0)) && Carries(input, Stop(input, 0), ret)
  {
    hide Carries, SetBits, Value, Stop, Reading, Digits;
    ret := [];
    var block, n, toWrite := Blank(), 0, 0;
    ReadingStart(input);
    while n < |input|
      invariant n <= |input| && toWrite == n % 8 && |block| == 5
      invariant Reading(input, n, ret, block)
    {
      var c := Value(input[n]);
      if c.None? {
        break;
      }
      ReadingStep(input, n, ret, block);
      block := SetBits(block, c.value, n % 8 * 5);
      toWrite := toWrite + 1;
      n := n + 1;
      if toWrite == 8 {
        ret := ret + block;
        block := Blank();
        toWrite := 0;
      }
    }
    ReadingEnd(input, n, ret, block);
    ret := ret + block[..toWrite * 5 / 8];
  }

  lemma StopBeyond(input: seq<byte>, n: nat)
    requires n < |input| && n <= Stop(input, 0) && Value(input[n]).Some?
    ensures n < Stop(input, 0)
  {
    hide Value;
  }

  lemma StopHere(input: seq<byte>, n: nat)
    requires n <= Stop(input, 0) && (n < |input| ==> Value(input[n]).None?)
    ensures n == Stop(input, 0)
  {
    hide Value;
  }

  // ---- decoding inverts encoding ----

  lemma StopIs(input: seq<byte>, i: nat, m: nat)
    requires i <= m <= |input| && (m < |input| ==> Value(input[m]).None?)
    requires forall j :: i <= j < m ==> Value(input[j]).Some?
    ensures Stop(input, i) == m
  {
    hide Value, Stop;
    var n := Stop(input, i);
    assert !(n < m) && !(m < n);
  }

  /** A text that differs from the encoded one at most in the case of its letters. */
  predicate Respelled(r: seq<byte>, input: seq<byte>)
  {
    |input| == |r| && forall i :: 0 <= i < |r| ==> input[i] == r[i] || input[i] == LowerByte(r[i])
  }

  lemma EncodedValue(s: seq<byte>, r: seq<byte>, input: seq<byte>, i: nat) returns (v: nat)
    requires Encodes(s, r) && Respelled(r, input) && i < |r|
    ensures i < Chars(|s|) ==> Value(input[i]) == Some(v) && Fives(s, 5 * i, v)
    ensures i >= Chars(|s|) ==> Value(input[i]).None?
  {
    hide Fives, Digit, Chars;
    v := 0;
    if i < Chars(|s|) {
      assert CharOk(s, i, r[i]);
      v :| v < 32 && r[i] == Digit(v) && Fives(s, 5 * i, v);
      DigitValue(v);
    }
  }

  lemma CharsFit(n: nat)
    ensures Chars(n) <= Total(n) && 5 * Chars(n) / 8 == n && 8 * n <= 5 * Chars(n)
  {
  }

  lemma EncodedStop(s: seq<byte>, r: seq<byte>, input: seq<byte>)
    requires Encodes(s, r) && Respelled(r, input)
    ensures Stop(input, 0) == Chars(|s|) && Digits(input, Chars(|s|))
    ensures forall i :: 0 <= i < Chars(|s|) ==> Value(input[i]).value < 32
  {
    hide Fives, Value, Chars;
    var m := Chars(|s|);
    CharsFit(|s|);
    assert |input| == |r| == Total(|s|);
    forall i | 0 <= i < m ensures Value(input[i]).Some? && Value(input[i]).value < 32 {
      var v := EncodedValue(s, r, input, i);
      FivesSmall(s, 5 * i, v);
    }
    if m < |input| {
      var v := EncodedValue(s, r, input, m);
    }
    StopIs(input, 0, m);
  }

  lemma FivesSmall(s: seq<byte>, k: nat, v: nat)
    requires Fives(s, k, v)
    ensures v < 32
  {
  }

  lemma FivesBit(s: seq<byte>, k: nat, v: nat, t: nat)
    requires Fives(s, k, v) && t < 5
    ensures Bit(v, 4 - t) == BitOf(s, k + t)
  {
    assert BitAgrees(s, k, v, t);
  }

  lemma SameBits(a: seq<byte>, b: seq<byte>)
    requires |a| == |b| && forall k :: 0 <= k < 8 * |a| ==> BitOf(a, k) == BitOf(b, k)
    ensures a == b
  {
    hide Bit;
    Pow2Values();
    forall i | 0 <= i < |a| ensures a[i] == b[i] {
      forall e | 0 <= e < 8 ensures Bit(a[i], e) == Bit(b[i], e) {
        var k := 8 * i + (7 - e);
        assert k / 8 == i && k % 8 == 7 - e;
        assert BitOf(a, k) == BitOf(b, k);
      }
      BitsEqual(a[i], b[i], 8);
    }
  }

  /** Decoding the encoded form, in upper or lower case, gives the bytes back. */
  method RoundTrip(s: seq<byte>, junk: byte, lower: bool) returns (d: seq<byte>)
    ensures d == s
  {
    hide Carries, Encodes, Stop, Digits, BitOf;
    var r := ToBase32Hex(s, junk);
    var input := if lower then Lower(r) else r;
    d := FromBase32Hex(input);
    DecodedBack(s, r, input, d);
  }

  lemma DecodedBack(s: seq<byte>, r: seq<byte>, input: seq<byte>, d: seq<byte>)
    requires Encodes(s, r) && Respelled(r, input)
    requires |d| == 5 * Stop(input, 0) / 8 && Digits(input, Stop(input, 0)) && Carries(input, Stop(input, 0), d)
    ensures d == s
  {
    hide Fives, Value, Chars, BitOf, Bit, Respelled, Encodes;
    EncodedStop(s, r, input);
    CharsFit(|s|);
    var m := Chars(|s|);
    forall k | 0 <= k < 8 * |d| ensures BitOf(d, k) == BitOf(s, k) {
      assert BitOf(d, k) == CarriedBit(input, m, k);
      SizesAgree(s, r, input);
      CarriedPlain(input, m, k);
      var v := EncodedValue(s, r, input, k / 5);
      FivesBit(s, 5 * (k / 5), v, k % 5);
    }
    SameBits(d, s);
  }

  /** Characters of the alphabet carry their five bits. */
  lemma CarriedPlain(input: seq<byte>, n: nat, k: nat)
    requires Digits(input, n) && k < 5 * n && forall i :: 0 <= i < n ==> Value(input[i]).value < 32
    ensures CarriedBit(input, n, k) == Bit(Value(input[k / 5]).value, 4 - k % 5)
  {
    hide Value;
    Pow2Values();
    if k / 5 + 1 < n {
      BitBeyond(Value(input[k / 5 + 1]).value, 5, 5);
    }
    hide Bit;
  }

  lemma SizesAgree(s: seq<byte>, r: seq<byte>, input: seq<byte>)
    requires Encodes(s, r) && Respelled(r, input)
    ensures |input| == |r| == Total(|s|) && Chars(|s|) <= |r|
  {
    CharsFit(|s|);
  }

  // ---- the order of names is kept ----

  /** The first bit in which two strings of one length differ. */
  lemma FirstBit(s: seq<byte>, t: seq<byte>) returns (k: nat)
    requires |s| == |t| && Lex(s, t)
    ensures k < 8 * |s| && BitOf(s, k) == 0 && BitOf(t, k) == 1
    ensures forall j :: 0 <= j < k ==> BitOf(s, j) == BitOf(t, j)
  {
    hide Bit, Diff;
    Pow2Values();
    var d := Diff(s, t, 0);
    var e := FirstDifference(s[d], t[d], 8);
    k := 8 * d + (7 - e);
    assert k / 8 == d && k % 8 == 7 - e;
    forall j | 0 <= j < k ensures BitOf(s, j) == BitOf(t, j) {
      if j / 8 == d {
        assert e < 7 - j % 8 < 8;
      }
    }
  }

  /** The characters of two strings that agree before bit k: equal before the one that carries bit k. */
  lemma CharBefore(s: seq<byte>, t: seq<byte>, a: seq<byte>, b: seq<byte>, k: nat, i: nat)
    requires |s| == |t| && Encodes(s, a) && Encodes(t, b) && k < 8 * |s| && i < k / 5
    requires forall j :: 0 <= j < k ==> BitOf(s, j) == BitOf(t, j)
    ensures i < |a| && i < |b| && a[i] == b[i]
  {
    hide Bit, BitOf, Digit, Fives;
    Pow2Values();
    CharsFit(|s|);
    assert i < Chars(|s|);
    assert CharOk(s, i, a[i]) && CharOk(t, i, b[i]);
    var v :| v < 32 && a[i] == Digit(v) && Fives(s, 5 * i, v);
    var w :| w < 32 && b[i] == Digit(w) && Fives(t, 5 * i, w);
    forall e | 0 <= e < 5 ensures Bit(v, e) == Bit(w, e) {
      FivesBit(s, 5 * i, v, 4 - e);
      FivesBit(t, 5 * i, w, 4 - e);
    }
    BitsEqual(v, w, 5);
  }

  lemma CharAt(s: seq<byte>, t: seq<byte>, a: seq<byte>, b: seq<byte>, k: nat)
    requires |s| == |t| && Encodes(s, a) && Encodes(t, b) && k < 8 * |s| && BitOf(s, k) == 0 && BitOf(t, k) == 1
    requires forall j :: 0 <= j < k ==> BitOf(s, j) == BitOf(t, j)
    ensures k / 5 < |a| && k / 5 < |b| && a[k / 5] < b[k / 5] && LowerByte(a[k / 5]) < LowerByte(b[k / 5])
  {
    hide Bit, BitOf, Digit, Fives, LowerByte;
    Pow2Values();
    CharsFit(|s|);
    var i := k / 5;
    assert CharOk(s, i, a[i]) && CharOk(t, i, b[i]);
    var v :| v < 32 && a[i] == Digit(v) && Fives(s, 5 * i, v);
    var w :| w < 32 && b[i] == Digit(w) && Fives(t, 5 * i, w);
    var e := 4 - k % 5;
    FivesBit(s, 5 * i, v, k % 5);
    FivesBit(t, 5 * i, w, k % 5);
    forall f | e < f < 5 ensures Bit(v, f) == Bit(w, f) {
      FivesBit(s, 5 * i, v, 4 - f);
      FivesBit(t, 5 * i, w, 4 - f);
    }
    DecidedBy(v, w, 5, e);
    DigitOrder(v, w);
  }

  lemma LessEncoded(s: seq<byte>, t: seq<byte>, a: seq<byte>, b: seq<byte>)
    requires |s| == |t| && Encodes(s, a) && Encodes(t, b) && Lex(s, t)
    ensures Lex(a, b) && Lex(Lower(a), Lower(b))
  {
    hide Encodes, BitOf, Lex, LowerByte;
    var k := FirstBit(s, t);
    CharAt(s, t, a, b, k);
    forall i | 0 <= i < k / 5 ensures a[i] == b[i] {
      CharBefore(s, t, a, b, k, i);
    }
    LexAt(a, b, k / 5);
    LexAt(Lower(a), Lower(b), k / 5);
  }

  /** One string has one encoded form. */
  lemma EncodedUnique(s: seq<byte>, a: seq<byte>, b: seq<byte>)
    requires Encodes(s, a) && Encodes(s, b)
    ensures a == b
  {
    hide Fives, Digit, Chars, Total;
    forall i | 0 <= i < |a| ensures a[i] == b[i] {
      if i < Chars(|s|) {
        assert CharOk(s, i, a[i]) && CharOk(s, i, b[i]);
        var v :| v < 32 && a[i] == Digit(v) && Fives(s, 5 * i, v);
        var w :| w < 32 && b[i] == Digit(w) && Fives(s, 5 * i, w);
        SameFives(s, 5 * i, v, w);
      }
    }
  }

  lemma SameFives(s: seq<byte>, k: nat, v: nat, w: nat)
    requires Fives(s, k, v) && Fives(s, k, w)
    ensures v == w
  {
    hide Bit, BitOf;
    Pow2Values();
    forall e | 0 <= e < 5 ensures Bit(v, e) == Bit(w, e) {
      FivesBit(s, k, v, 4 - e);
      FivesBit(s, k, w, 4 - e);
    }
    BitsEqual(v, w, 5);
  }

  /** For strings of one length the encoding keeps and reflects the order, in upper and in lower case. */
  lemma OrderKept(s: seq<byte>, t: seq<byte>, a: seq<byte>, b: seq<byte>)
    requires |s| == |t| && Encodes(s, a) && Encodes(t, b)
    ensures Lex(s, t) <==> Lex(a, b)
    ensures Lex(s, t) <==> Lex(Lower(a), Lower(b))
  {
    hide Encodes, Lex, Lower;
    LexTotal(s, t);
    LexTotal(a, b);
    LexTotal(Lower(a), Lower(b));
    if Lex(s, t) {
      LessEncoded(s, t, a, b);
    } else if Lex(t, s) {
      LessEncoded(t, s, b, a);
    } else {
      EncodedUnique(s, a, b);
    }
  }
}
