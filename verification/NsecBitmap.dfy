/** The type bitmap of NSEC and NSEC3 records, section 4.1.2 of RFC 4034. */
module NsecBitmap {
  import opened Bits
  import opened Bytes

  // ---- bits of an octet, the j-th counted from the left ----

  predicate HasBit(b: byte, j: nat)
    requires j < 8
  {
    Bit(b, 7 - j) == 1
  }

  /** b |= 1 << (7 - j). */
  function OrBit(b: byte, j: nat): (r: byte)
    requires j < 8
  {
    Pow2Values();
    Or(b, Double(1, 7 - j), 8)
  }

  lemma OrBitIs(b: byte, j: nat, i: nat)
    requires j < 8 && i < 8
    ensures HasBit(OrBit(b, j), i) <==> i == j || HasBit(b, i)
  {
    BitOr(b, Double(1, 7 - j), 8, 7 - i);
    BitDouble(1, 7 - j, 7 - i);
    if i < j {
      BitBeyond(1, 1, j - i);
    }
  }

  // ---- what a bitmap means ----

  /** The type that bit j of octet k of a window stands for; the sum is cut to 16 bits. */
  function Number(window: byte, k: nat, j: nat): (t: u16)
  {
    (256 * window + 8 * k + j) % 0x10000
  }

  /** The bit of type t is set among the first n octets of a window. */
  ghost predicate InOctets(window: byte, octets: seq<byte>, n: nat, t: u16)
    requires n <= |octets|
  {
    exists k, j {:trigger Number(window, k, j)} ::
      0 <= k < n && 0 <= j < 8 && HasBit(octets[k], j) && t == Number(window, k, j)
  }

  datatype Result = Types(types: set<u16>) | TooSmall | Overrun

  function BitTypes(window: byte, octets: seq<byte>, k: nat, j: nat): (s: set<u16>)
    requires k < |octets| && j <= 8
  {
    if j == 0 then {}
    else BitTypes(window, octets, k, j - 1) + if HasBit(octets[k], j - 1) then {Number(window, k, j - 1)} else {}
  }

  function OctetTypes(window: byte, octets: seq<byte>, k: nat): (s: set<u16>)
    requires k <= |octets|
  {
    if k == 0 then {} else OctetTypes(window, octets, k - 1) + BitTypes(window, octets, k - 1, 8)
  }

  /** The windows from position n on. */
  function ParseFrom(bitmap: seq<byte>, n: nat): (r: Result)
    decreases if n < |bitmap| then |bitmap| - n else 0
  {
    if n + 1 >= |bitmap| then Types({})
    else
      var window, len := bitmap[n], bitmap[n + 1];
      if window == 0 && len == 0 then Types({})
      else if n + 2 + len > |bitmap| then Overrun
      else match ParseFrom(bitmap, n + 2 + len)
        case Types(s) => Types(OctetTypes(window, bitmap[n + 2..n + 2 + len], len) + s)
        case e => e
  }

  function Parse(bitmap: seq<byte>): (r: Result)
  {
    if bitmap == [] then Types({}) else if |bitmap| < 2 then TooSmall else ParseFrom(bitmap, 0)
  }

  lemma {:induction false} BitTypesIs(window: byte, octets: seq<byte>, k: nat, j: nat, t: u16)
    requires k < |octets| && j <= 8
    ensures t in BitTypes(window, octets, k, j) <==>
      exists i :: 0 <= i < j && HasBit(octets[k], i) && t == Number(window, k, i)
  {
    hide HasBit, Number;
    if j > 0 {
      BitTypesIs(window, octets, k, j - 1, t);
    }
  }

  lemma {:induction false} OctetTypesIs(window: byte, octets: seq<byte>, k: nat, t: u16)
    requires k <= |octets|
    ensures t in OctetTypes(window, octets, k) <==> InOctets(window, octets, k, t)
  {
    hide HasBit, Number;
    if k > 0 {
      OctetTypesIs(window, octets, k - 1, t);
      BitTypesIs(window, octets, k - 1, 8, t);
    }
  }

  /** What each of the eight bits of an octet is worth, from the left. */
  const WORTH: seq<nat> := [128, 64, 32, 16, 8, 4, 2, 1]

  lemma HasBitIs(b: byte, j: nat)
    requires j < 8
    ensures HasBit(b, j) <==> b as nat / WORTH[j] % 2 == 1
  {
    hide Half;
    var h := b as nat;
    HalfMore(h, 1, 1);
    HalfMore(h, 2, 1);
    HalfMore(h, 3, 1);
    HalfMore(h, 4, 1);
    HalfMore(h, 5, 1);
    HalfMore(h, 6, 1);
    Halves(h);
  }

  lemma Halves(h: nat)
    requires h < 256
    ensures Half(h, 0) == h && Half(h, 1) == h / 2 && Half(h / 2, 1) == h / 4 && Half(h / 4, 1) == h / 8
    ensures Half(h / 8, 1) == h / 16 && Half(h / 16, 1) == h / 32 && Half(h / 32, 1) == h / 64
    ensures Half(h / 64, 1) == h / 128
  {
    hide Half;
    HalfOnce(h);
    HalfOnce(h / 2);
    HalfOnce(h / 4);
    HalfOnce(h / 8);
    HalfOnce(h / 16);
    HalfOnce(h / 32);
    HalfOnce(h / 64);
  }

  lemma HalfOnce(h: nat)
    ensures Half(h, 0) == h && Half(h, 1) == h / 2
  {
  }

  lemma NumberParts(window: byte, k: nat, j: nat)
    requires k < 32 && j < 8
    ensures var t := Number(window, k, j); t / 256 == window && t % 256 / 8 == k && t % 8 == j
  {
    var r := 8 * k + j;
    assert r / 8 == k && r % 8 == j;
    assert (256 * window + r) / 256 == window && (256 * window + r) % 256 == r;
    assert (256 * window + r) % 8 == r % 8;
  }

  /** Section 4.1.2 of RFC 4034 in numbers: type t is the bit worth WORTH[t % 8] of octet (t % 256) / 8 of window
      t / 256. */
  lemma TypeIsBit(window: byte, octets: seq<byte>, t: u16)
    requires |octets| <= 32
    ensures t in OctetTypes(window, octets, |octets|) <==>
      && t / 256 == window && t % 256 / 8 < |octets|
      && octets[t % 256 / 8] as nat / WORTH[t % 8] % 2 == 1
  {
    hide HasBit, OctetTypes, Number;
    OctetTypesIs(window, octets, |octets|, t);
    var q, j := t % 256 / 8, t % 8;
    forall k, i | 0 <= k < |octets| && 0 <= i < 8 && t == Number(window, k, i)
      ensures t / 256 == window && k == q && i == j
    {
      NumberParts(window, k, i);
    }
    if q < |octets| {
      HasBitIs(octets[q], j);
    }
    if t / 256 == window && q < |octets| {
      NumberOf(t);
      assert t % 256 % 8 == t % 8;
    }
  }

  // ---- blocks ----

  datatype Block = Block(window: byte, octets: seq<byte>)

  /** What section 4.1.2 of RFC 4034 asks of a block: 1 to 32 octets, the last of them not zero. */
  predicate GoodBlock(b: Block)
  {
    1 <= |b.octets| <= 32 && b.octets[|b.octets| - 1] != 0
  }

  /** Good blocks in the order of their windows. */
  ghost predicate Proper(bs: seq<Block>)
  {
    && (forall i :: 0 <= i < |bs| ==> GoodBlock(bs[i]))
    && (forall i, j :: 0 <= i < j < |bs| ==> bs[i].window < bs[j].window)
  }

  function One(b: Block): (r: seq<byte>)
    requires GoodBlock(b)
  {
    [b.window, |b.octets|] + b.octets
  }

  function Flat(bs: seq<Block>, i: nat): (r: seq<byte>)
    requires i <= |bs| && Proper(bs)
    decreases |bs| - i
  {
    if i == |bs| then [] else One(bs[i]) + Flat(bs, i + 1)
  }

  /** The types of the blocks. */
  function TypesOf(bs: seq<Block>, i: nat): (s: set<u16>)
    requires i <= |bs|
    decreases |bs| - i
  {
    if i == |bs| then {} else OctetTypes(bs[i].window, bs[i].octets, |bs[i].octets|) + TypesOf(bs, i + 1)
  }

  lemma FlatStep(bs: seq<Block>, i: nat)
    requires i <= |bs| && Proper(bs)
    ensures i == |bs| ==> Flat(bs, i) == []
    ensures i < |bs| ==> GoodBlock(bs[i]) && Flat(bs, i) == One(bs[i]) + Flat(bs, i + 1)
  {
    hide One;
  }

  lemma ParseOne(bitmap: seq<byte>, n: nat, b: Block)
    requires GoodBlock(b) && n + |One(b)| <= |bitmap| && bitmap[n..n + |One(b)|] == One(b)
    ensures ParseFrom(bitmap, n)
      == match ParseFrom(bitmap, n + |One(b)|)
         case Types(s) => Types(OctetTypes(b.window, b.octets, |b.octets|) + s)
         case e => e
  {
    hide OctetTypes;
    var o := One(b);
    assert bitmap[n] == o[0] && bitmap[n + 1] == o[1];
    assert bitmap[n + 2..n + 2 + |b.octets|] == bitmap[n..n + |o|][2..] == o[2..] == b.octets;
  }

  lemma {:induction false} ParseFlat(bs: seq<Block>, i: nat, before: seq<byte>)
    requires Proper(bs) && i <= |bs|
    ensures ParseFrom(before + Flat(bs, i), |before|) == Types(TypesOf(bs, i))
    decreases |bs| - i
  {
    hide OctetTypes, Proper, Flat, One, GoodBlock, ParseFrom;
    var bitmap := before + Flat(bs, i);
    FlatStep(bs, i);
    if i < |bs| {
      var b := bs[i];
      var rest := Flat(bs, i + 1);
      assert bitmap == before + One(b) + rest;
      ParseOne(bitmap, |before|, b);
      ParseFlat(bs, i + 1, before + One(b));
    } else {
      ParseEnd(bitmap);
    }
  }

  lemma ParseEnd(bitmap: seq<byte>)
    ensures ParseFrom(bitmap, |bitmap|) == Types({})
  {
  }

  // ---- the writer ----

  predicate Ascending(types: seq<u16>)
  {
    forall i, j :: 0 <= i < j < |types| ==> types[i] < types[j]
  }

  lemma {:induction false} FlatSnoc(bs: seq<Block>, b: Block, i: nat)
    requires Proper(bs) && Proper(bs + [b]) && GoodBlock(b) && i <= |bs|
    ensures Flat(bs + [b], i) == Flat(bs, i) + One(b)
    decreases |bs| - i
  {
    hide One, Proper, Flat, GoodBlock;
    var r := bs + [b];
    FlatStep(bs, i);
    FlatStep(r, i);
    if i == |bs| {
      FlatStep(r, i + 1);
      assert One(b) + [] == [] + One(b);
    } else {
      FlatSnoc(bs, b, i + 1);
      assert r[i] == bs[i];
      assert One(bs[i]) + (Flat(bs, i + 1) + One(b)) == One(bs[i]) + Flat(bs, i + 1) + One(b);
    }
  }

  lemma {:induction false} TypesSnoc(bs: seq<Block>, b: Block, i: nat)
    requires i <= |bs|
    ensures TypesOf(bs + [b], i) == TypesOf(bs, i) + OctetTypes(b.window, b.octets, |b.octets|)
    decreases |bs| - i
  {
    hide OctetTypes;
    if i == |bs| {
      assert TypesOf(bs + [b], i + 1) == {};
    } else {
      TypesSnoc(bs, b, i + 1);
    }
  }

  /** A window buffer: two bytes of head and 32 octets, of which at most the first n are not zero. */
  predicate Buffer(res: seq<byte>, n: nat)
  {
    |res| == 34 && n <= 32 && forall i :: 2 + n <= i < 34 ==> res[i] == 0
  }

  function Octets(res: seq<byte>, n: nat): (o: seq<byte>)
    requires |res| == 34 && n <= 32
    ensures |o| == n && forall k :: 0 <= k < n ==> o[k] == res[2 + k]
  {
    res[2..2 + n]
  }

  lemma NoBits(j: nat)
    requires j < 8
    ensures !HasBit(0, j)
  {
    BitNone(7 - j);
  }

  /** Setting a bit at or behind the last octet in use adds its number to the window's types. */
  lemma AddBit(window: byte, res: seq<byte>, n: nat, q: nat, j: nat)
    requires Buffer(res, n) && n <= q + 1 <= 32 && j < 8
    ensures
      var r := res[2 + q := OrBit(res[2 + q], j)];
      && Buffer(r, q + 1) && r[2 + q] != 0
      && OctetTypes(window, Octets(r, q + 1), q + 1) == OctetTypes(window, Octets(res, n), n) + {Number(window, q, j)}
  {
    hide HasBit, Number, OctetTypes, OrBit;
    var r := res[2 + q := OrBit(res[2 + q], j)];
    OrBitIs(res[2 + q], j, j);
    NoBits(j);
    forall t: u16
      ensures t in OctetTypes(window, Octets(r, q + 1), q + 1)
        <==> t in OctetTypes(window, Octets(res, n), n) || t == Number(window, q, j)
    {
      OctetTypesIs(window, Octets(r, q + 1), q + 1, t);
      OctetTypesIs(window, Octets(res, n), n, t);
      var a, b := Octets(r, q + 1), Octets(res, n);
      forall m, i | 0 <= m <= q && 0 <= i < 8
        ensures HasBit(a[m], i) <==> (m == q && i == j) || (m < n && HasBit(b[m], i))
      {
        assert a[m] == r[2 + m];
        OrBitIs(res[2 + q], j, i);
        NoBits(i);
      }
      BitsOver(window, Octets(r, q + 1), Octets(res, n), q, j, t);
    }
  }

  /** From bits to numbers. */
  lemma BitsOver(window: byte, a: seq<byte>, b: seq<byte>, q: nat, j: nat, t: u16)
    requires |a| == q + 1 && |b| <= q + 1 && j < 8
    requires forall m, i {:trigger HasBit(a[m], i)} {:trigger HasBit(b[m], i)} :: 0 <= m <= q && 0 <= i < 8 ==>
      (HasBit(a[m], i) <==> (m == q && i == j) || (m < |b| && HasBit(b[m], i)))
    ensures InOctets(window, a, q + 1, t) <==> InOctets(window, b, |b|, t) || t == Number(window, q, j)
  {
    hide HasBit, Number;
    if t == Number(window, q, j) {
      assert HasBit(a[q], j);
    }
  }

  function Elements(types: seq<u16>): (s: set<u16>)
  {
    set t | t in types
  }

  lemma NumberOf(t: u16)
    ensures Number(t / 256, t % 256 / 8, t % 256 % 8) == t
  {
  }

  /** After some types have been entered: finished blocks, and the block that is being filled. */
  ghost predicate Filling(seen: seq<u16>, out: seq<byte>, bs: seq<Block>, window: byte, res: seq<byte>, len: nat)
  {
    && Buffer(res, len) && 1 <= len && Proper(bs + [Block(window, Octets(res, len))])
    && Proper(bs) && out == Flat(bs, 0)
    && TypesOf(bs + [Block(window, Octets(res, len))], 0) == Elements(seen)
    && seen != [] && seen[|seen| - 1] / 256 == window && len == 1 + seen[|seen| - 1] % 256 / 8
  }

  lemma ProperSnoc(bs: seq<Block>, b: Block)
    requires Proper(bs) && GoodBlock(b) && (bs != [] ==> bs[|bs| - 1].window < b.window)
    ensures Proper(bs + [b])
  {
    var r := bs + [b];
    forall i, j | 0 <= i < j < |r| ensures r[i].window < r[j].window {
      assert j == |bs| ==> r[i].window <= bs[|bs| - 1].window;
    }
  }

  lemma ProperInit(bs: seq<Block>, b: Block)
    requires Proper(bs + [b])
    ensures Proper(bs) && GoodBlock(b) && (bs != [] ==> bs[|bs| - 1].window < b.window)
  {
    var r := bs + [b];
    forall i | 0 <= i < |bs| ensures GoodBlock(bs[i]) {
      assert GoodBlock(r[i]);
    }
    forall i, j | 0 <= i < j < |bs| ensures bs[i].window < bs[j].window {
      assert r[i].window < r[j].window;
    }
    assert r[|bs|] == b && GoodBlock(r[|bs|]);
    if bs != [] {
      assert r[|bs| - 1].window < r[|bs|].window;
    }
  }

  /** Entering the next type: into the block being filled, or as the first of a new block. */
  lemma Enter(bs: seq<Block>, window: byte, res: seq<byte>, n: nat, t: u16, before: set<u16>)
    requires Proper(bs) && Buffer(res, n) && t / 256 == window && n <= 1 + t % 256 / 8
    requires bs != [] ==> bs[|bs| - 1].window < window
    requires TypesOf(bs, 0) + OctetTypes(window, Octets(res, n), n) == before
    ensures
      var q, j := t % 256 / 8, t % 256 % 8;
      var r := res[2 + q := OrBit(res[2 + q], j)];
      var b := Block(window, Octets(r, q + 1));
      && Buffer(r, q + 1) && Proper(bs + [b]) && TypesOf(bs + [b], 0) == before + {t}
  {
    hide OctetTypes, TypesOf, OrBit, Number, Proper;
    var q, j := t % 256 / 8, t % 256 % 8;
    var r := res[2 + q := OrBit(res[2 + q], j)];
    var b := Block(window, Octets(r, q + 1));
    AddBit(window, res, n, q, j);
    NumberOf(t);
    ProperSnoc(bs, b);
    TypesSnoc(bs, b, 0);
  }

  lemma TypesNone()
    ensures TypesOf([], 0) == {} && forall window, o :: OctetTypes(window, o, 0) == {}
  {
  }

  function Zeros(): (r: seq<byte>)
    ensures |r| == 34 && forall k :: 0 <= k < 34 ==> r[k] == 0
  {
    seq(34, i => 0)
  }

  lemma FillingFacts(seen: seq<u16>, out: seq<byte>, bs: seq<Block>, window: byte, res: seq<byte>, len: nat)
    requires Filling(seen, out, bs, window, res, len)
    ensures
      var b := Block(window, Octets(res, len));
      && Buffer(res, len) && 1 <= len <= 32 && |res| == 34
      && Proper(bs) && Proper(bs + [b]) && GoodBlock(b) && out == Flat(bs, 0)
      && TypesOf(bs, 0) + OctetTypes(window, Octets(res, len), len) == TypesOf(bs + [b], 0) == Elements(seen)
      && (bs != [] ==> bs[|bs| - 1].window < window)
      && Flat(bs + [b], 0) == out + One(b)
      && seen != [] && seen[|seen| - 1] / 256 == window && len == 1 + seen[|seen| - 1] % 256 / 8
  {
    hide Proper, Flat, TypesOf, Elements, OctetTypes, GoodBlock, One;
    var b := Block(window, Octets(res, len));
    ProperInit(bs, b);
    FlatSnoc(bs, b, 0);
    TypesSnoc(bs, b, 0);
  }

  lemma FillingFold(seen: seq<u16>, out: seq<byte>, bs: seq<Block>, window: byte, res: seq<byte>, len: nat)
    requires |res| == 34 && len <= 32
    requires Buffer(res, len) && 1 <= len && Proper(bs + [Block(window, Octets(res, len))])
    requires Proper(bs) && out == Flat(bs, 0)
    requires TypesOf(bs + [Block(window, Octets(res, len))], 0) == Elements(seen)
    requires seen != [] && seen[|seen| - 1] / 256 == window && len == 1 + seen[|seen| - 1] % 256 / 8
    ensures Filling(seen, out, bs, window, res, len)
  {
    hide Buffer, Proper, Flat, TypesOf, Elements;
  }

  /** What must hold before a type is entered into the buffer; n octets are in use. */
  ghost predicate Ready(seen: seq<u16>, out: seq<byte>, bs: seq<Block>, window: byte, res: seq<byte>, n: nat, t: u16)
  {
    && Proper(bs) && out == Flat(bs, 0) && Buffer(res, n) && t / 256 == window && n <= 1 + t % 256 / 8
    && (bs != [] ==> bs[|bs| - 1].window < window)
    && TypesOf(bs, 0) + OctetTypes(window, Octets(res, n), n) == Elements(seen)
  }

  lemma ReadyFirst(t: u16)
    ensures Ready([], [], [], t / 256, Zeros(), 0, t)
  {
    hide Number;
    TypesNone();
  }

  lemma ReadySame(seen: seq<u16>, out: seq<byte>, bs: seq<Block>, window: byte, res: seq<byte>, len: nat, t: u16)
    requires Filling(seen, out, bs, window, res, len) && t / 256 == window && seen[|seen| - 1] < t
    ensures Ready(seen, out, bs, window, res, len, t)
  {
    FillingFacts(seen, out, bs, window, res, len);
    hide Buffer, Proper, Flat, TypesOf, Elements, OctetTypes, GoodBlock, One, Filling;
  }

  lemma ReadyNew(seen: seq<u16>, out: seq<byte>, bs: seq<Block>, window: byte, res: seq<byte>, len: nat, t: u16)
    requires Filling(seen, out, bs, window, res, len) && t / 256 != window && seen[|seen| - 1] < t
    ensures |res| == 34 && len <= 32
    ensures Ready(seen, out + ([window, len] + res[2..2 + len]), bs + [Block(window, res[2..2 + len])],
                  t / 256, Zeros(), 0, t)
  {
    FillingFacts(seen, out, bs, window, res, len);
    TypesNone();
    hide Proper, Flat, TypesOf, Elements, OctetTypes, GoodBlock, Filling;
  }

  lemma Entered(seen: seq<u16>, out: seq<byte>, bs: seq<Block>, window: byte, res: seq<byte>, n: nat, t: u16)
    requires Ready(seen, out, bs, window, res, n, t)
    ensures |res| == 34
    ensures Filling(seen + [t], out, bs, window,
                    res[2 + t % 256 / 8 := OrBit(res[2 + t % 256 / 8], t % 256 % 8)], 1 + t % 256 / 8)
  {
    hide Proper, Flat, TypesOf, Elements, OctetTypes, GoodBlock, Filling, OrBit, Buffer, Ready;
    ReadyFacts(seen, out, bs, window, res, n, t);
    var r := res[2 + t % 256 / 8 := OrBit(res[2 + t % 256 / 8], t % 256 % 8)];
    Enter(bs, window, res, n, t, Elements(seen));
    ElementsSnoc(seen, t);
    FillingFold(seen + [t], out, bs, window, r, 1 + t % 256 / 8);
  }

  lemma ElementsSnoc(seen: seq<u16>, t: u16)
    ensures Elements(seen + [t]) == Elements(seen) + {t}
  {
  }

  lemma ReadyFacts(seen: seq<u16>, out: seq<byte>, bs: seq<Block>, window: byte, res: seq<byte>, n: nat, t: u16)
    requires Ready(seen, out, bs, window, res, n, t)
    ensures |res| == 34 && n <= 32 && Proper(bs) && out == Flat(bs, 0) && Buffer(res, n) && t / 256 == window
    ensures n <= 1 + t % 256 / 8
    ensures bs != [] ==> bs[|bs| - 1].window < window
    ensures TypesOf(bs, 0) + OctetTypes(window, Octets(res, n), n) == Elements(seen)
  {
    hide Proper, Flat, TypesOf, Elements, OctetTypes;
  }

  lemma NoTypes()
    ensures Proper([]) && TypesOf([], 0) == Elements([])
  {
  }

  /** The bitmap part of toPacket, for NSEC and NSEC3 alike. The empty set yields one empty window. */
  method Encode(types: seq<u16>) returns (out: seq<byte>, ghost bs: seq<Block>)
    requires Ascending(types)
    ensures Proper(bs) && TypesOf(bs, 0) == Elements(types)
    ensures out == if types == [] then [0, 0] else Flat(bs, 0)
    ensures types != [] ==> bs != []
  {
    hide Filling, Ready, Proper, Flat, TypesOf, OctetTypes, Elements, Buffer, OrBit, GoodBlock, One, Zeros, HasBit;
    var res: seq<byte> := Zeros();
    var oldWindow: int, window: byte, len: byte := -1, 0, 0;
    out, bs := [], [];
    NoTypes();
    var i := 0;
    while i < |types|
      invariant i <= |types| && |res| == 34
      invariant i == 0 ==> oldWindow == -1 && out == [] && bs == [] && len == 0 && window == 0
      invariant i > 0 ==> oldWindow == window && len <= 32 && Filling(types[..i], out, bs, window, res, len)
    {
      var t := types[i];
      var bit := t % 256;
      ghost var used: nat := len;
      assert i > 0 ==> types[..i][i - 1] < t;
      window := t / 256;
      if window != oldWindow {
        if oldWindow > -1 {
          var before: byte := oldWindow;
          ReadyNew(types[..i], out, bs, before, res, len, t);
          out := out + ([before, len] + res[2..2 + len]);
          bs := bs + [Block(before, res[2..2 + len])];
        } else {
          ReadyFirst(t);
        }
        res := Zeros();
        oldWindow, used := window, 0;
      } else {
        ReadySame(types[..i], out, bs, window, res, len, t);
      }
      Entered(types[..i], out, bs, window, res, used, t);
      res := res[2 + bit / 8 := OrBit(res[2 + bit / 8], bit % 8)];
      len := 1 + bit / 8;
      assert types[..i + 1] == types[..i] + [t];
      i := i + 1;
    }
    if types == [] {
      return [window, len] + res[2..2 + len], [];
    }
    assert types[..i] == types;
    FillingFacts(types, out, bs, window, res, len);
    OneIs(window, res, len);
    out := out + ([window, len] + res[2..2 + len]);
    bs := bs + [Block(window, Octets(res, len))];
  }

  lemma OneIs(window: byte, res: seq<byte>, len: byte)
    requires |res| == 34 && len <= 32 && GoodBlock(Block(window, Octets(res, len)))
    ensures One(Block(window, Octets(res, len))) == [window, len] + res[2..2 + len]
  {
  }

  // ---- the reader ----

  /** Types found so far, and what the rest of the bitmap yields. */
  function Joined(types: set<u16>, r: Result): (q: Result)
  {
    match r
    case Types(s) => Types(types + s)
    case e => e
  }

  /** The loop over the bits of one octet, from the last to the first. */
  method DecodeOctet(window: byte, k: byte, octet: byte, ghost octets: seq<byte>) returns (types: set<u16>)
    requires k < |octets| && octets[k] == octet
    ensures types == BitTypes(window, octets, k, 8)
  {
    hide Number, Half;
    types := {};
    var val: nat := octet;
    var bit := 0;
    NoShift(octet);
    while bit < 8
      invariant bit <= 8 && val == Half(octet, bit)
      invariant BitTypes(window, octets, k, 8 - bit) + types == BitTypes(window, octets, k, 8)
    {
      HalfStep(octet, bit);
      if val % 2 == 1 {
        types := types + {Number(window, k, 7 - bit)};
      }
      val := val / 2;
      bit := bit + 1;
    }
  }

  lemma NoShift(v: nat)
    ensures Half(v, 0) == v
  {
  }

  lemma ParseStep(bitmap: seq<byte>, n: nat)
    requires n + 1 < |bitmap|
    ensures
      var window, len := bitmap[n], bitmap[n + 1];
      && (window == 0 && len == 0 ==> ParseFrom(bitmap, n) == Types({}))
      && (!(window == 0 && len == 0) && n + 2 + len > |bitmap| ==> ParseFrom(bitmap, n) == Overrun)
      && (!(window == 0 && len == 0) && n + 2 + len <= |bitmap| ==>
            ParseFrom(bitmap, n)
            == Joined(OctetTypes(window, bitmap[n + 2..n + 2 + len], len), ParseFrom(bitmap, n + 2 + len)))
  {
    hide OctetTypes;
  }

  lemma JoinedTwice(a: set<u16>, b: set<u16>, r: Result)
    ensures Joined(a, Joined(b, r)) == Joined(a + b, r) && Joined({}, r) == r
  {
    if r.Types? {
      assert a + (b + r.types) == a + b + r.types && {} + r.types == r.types;
    }
  }

  lemma JoinedNone(a: set<u16>)
    ensures Joined(a, Types({})) == Types(a) && Joined(a, Overrun) == Overrun
  {
    assert a + {} == a;
  }

  lemma OctetStep(window: byte, octets: seq<byte>, k: nat)
    requires k < |octets|
    ensures OctetTypes(window, octets, 0) == {}
    ensures OctetTypes(window, octets, k + 1) == OctetTypes(window, octets, k) + BitTypes(window, octets, k, 8)
  {
  }

  lemma NoOctets(window: byte, octets: seq<byte>)
    ensures OctetTypes(window, octets, 0) == {}
  {
  }

  /** The bitmap part of make: window by window, octet by octet. */
  method Decode(bitmap: seq<byte>) returns (r: Result)
    ensures r == Parse(bitmap)
  {
    hide OctetTypes, BitTypes, Joined, ParseFrom;
    if bitmap == [] {
      return Types({});
    }
    if |bitmap| < 2 {
      return TooSmall;
    }
    var n := 0;
    var types: set<u16> := {};
    JoinedTwice({}, {}, ParseFrom(bitmap, 0));
    while n + 1 < |bitmap|
      invariant n <= |bitmap|
      invariant Joined(types, ParseFrom(bitmap, n)) == ParseFrom(bitmap, 0)
    {
      var window, len := bitmap[n], bitmap[n + 1];
      ParseStep(bitmap, n);
      JoinedNone(types);
      n := n + 2;
      if window == 0 && len == 0 {
        return Types(types);
      }
      if n + len > |bitmap| {
        return Overrun;
      }
      ghost var octets := bitmap[n..n + len];
      ghost var before := types;
      JoinedTwice(before, OctetTypes(window, octets, len), ParseFrom(bitmap, n + len));
      var k: byte := 0;
      NoOctets(window, octets);
      assert before + {} == before;
      while k < len
        invariant k <= len && types == before + OctetTypes(window, octets, k)
      {
        var found := DecodeOctet(window, k, bitmap[n + k], octets);
        OctetStep(window, octets, k);
        types := types + found;
        assert types == before + OctetTypes(window, octets, k + 1);
        k := k + 1;
      }
      n := n + len;
    }
    NothingLeft(bitmap, n);
    JoinedNone(types);
    r := Types(types);
  }

  lemma NothingLeft(bitmap: seq<byte>, n: nat)
    requires n + 1 >= |bitmap|
    ensures ParseFrom(bitmap, n) == Types({})
  {
  }

  /** For every set of types, parsing the bitmap written for it gives the set back. */
  method RoundTrip(types: seq<u16>) returns (r: Result)
    requires Ascending(types)
    ensures r == Types(Elements(types))
  {
    hide Proper, Flat, TypesOf, GoodBlock, Elements, ParseFrom;
    var out, bs := Encode(types);
    r := Decode(out);
    if types == [] {
      EmptyWindow();
    } else {
      ParseFlat(bs, 0, []);
      assert [] + Flat(bs, 0) == Flat(bs, 0);
      FlatLong(bs);
    }
  }

  lemma EmptyWindow()
    ensures Parse([0, 0]) == Types({}) && Elements([]) == {}
  {
  }

  lemma FlatLong(bs: seq<Block>)
    requires Proper(bs) && bs != []
    ensures |Flat(bs, 0)| >= 2
  {
    FlatStep(bs, 0);
  }
}
