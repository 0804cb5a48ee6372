/** What compression promises of a packet: no name that may be compressed spells out a suffix that stands,
    at an offset a pointer can hold, in a name written before it. */
module Compression {
  import opened Bytes
  import opened Names
  import opened Wire
  import opened NameWriter

  /** Where the labels stand that a name spells out itself, before its zero byte or pointer. */
  function Starts(img: Image, pos: nat): (r: seq<nat>)
    decreases Room(img, pos)
  {
    if pos >= |img| || img[pos] <= 0 || img[pos] >= 0xc0 then [] else [pos] + Starts(img, pos + 1 + img[pos])
  }

  ghost predicate Decodes(img: Image, pos: nat)
  {
    exists h: nat :: Decode(img, pos, h).Name?
  }

  /** The same labels, up to case, are read from both places. */
  ghost predicate Twins(img: Image, x: nat, y: nat)
  {
    exists h: nat ::
      && Decode(img, x, h).Name? && Decode(img, y, h).Name?
      && SameLabels(Decode(img, x, h).labels, Decode(img, y, h).labels)
  }

  /** A name in a packet, and whether it may be compressed. */
  datatype Mention = Mention(pos: nat, compress: bool)

  ghost predicate AllDecode(img: Image, ms: seq<Mention>)
  {
    forall a :: 0 <= a < |ms| ==> Decodes(img, ms[a].pos)
  }

  /** No name that may be compressed spells out what a name before it has in reach of a pointer. */
  ghost predicate Thrifty(img: Image, ms: seq<Mention>)
  {
    forall a, b, x, y ::
      0 <= a < b < |ms| && ms[b].compress && x in Starts(img, ms[b].pos) && y in Starts(img, ms[a].pos) && y < 16384 ==>
        !Twins(img, x, y)
  }

  ghost predicate Offsets(lmap: seq<Entry>, y: nat)
  {
    exists i :: 0 <= i < |lmap| && lmap[i].offset == y
  }

  /** All labels in reach are in the map. */
  ghost predicate Covered(img: Image, ms: seq<Mention>, lmap: seq<Entry>)
  {
    forall a, y :: 0 <= a < |ms| && y in Starts(img, ms[a].pos) && y < 16384 ==> Offsets(lmap, y)
  }

  ghost predicate Lean(img: Image, ms: seq<Mention>, lmap: seq<Entry>)
  {
    AllDecode(img, ms) && Thrifty(img, ms) && Covered(img, ms, lmap)
  }

  // ---- filling holes changes nothing ----

  lemma {:induction false} StartsDecode(img: Image, pos: nat, h: nat, x: nat)
    requires Decode(img, pos, h).Name? && x in Starts(img, pos)
    ensures Decode(img, x, h).Name?
    decreases Room(img, pos)
  {
    if x != pos {
      StartsDecode(img, pos + 1 + img[pos], h, x);
    }
  }

  lemma {:induction false} StartsMono(a: Image, b: Image, pos: nat, h: nat)
    requires Agree(a, b) && Decode(a, pos, h).Name?
    ensures Starts(b, pos) == Starts(a, pos)
    decreases Room(a, pos)
  {
    if a[pos] != 0 && a[pos] < 0xc0 {
      StartsMono(a, b, pos + 1 + a[pos], h);
    }
  }

  lemma TwinsBack(a: Image, b: Image, x: nat, y: nat)
    requires Agree(a, b) && Decodes(a, x) && Decodes(a, y) && Twins(b, x, y)
    ensures Twins(a, x, y)
  {
    hide Decode, Agree, SameLabels;
    var hx: nat :| Decode(a, x, hx).Name?;
    var hy: nat :| Decode(a, y, hy).Name?;
    var h: nat :| Decode(b, x, h).Name? && Decode(b, y, h).Name?
      && SameLabels(Decode(b, x, h).labels, Decode(b, y, h).labels);
    var most := hx + hy + h;
    DecodeMore(a, x, hx, most);
    DecodeMore(a, y, hy, most);
    DecodeMono(a, b, x, most);
    DecodeMono(a, b, y, most);
    DecodeMore(b, x, h, most);
    DecodeMore(b, y, h, most);
  }

  lemma MentionMono(a: Image, b: Image, pos: nat)
    requires Agree(a, b) && Decodes(a, pos)
    ensures Decodes(b, pos) && Starts(b, pos) == Starts(a, pos) && NameEnd(b, pos) == NameEnd(a, pos)
    ensures forall x :: x in Starts(a, pos) ==> Decodes(a, x)
  {
    hide Decode, Agree, NameEnd, Starts;
    var h: nat :| Decode(a, pos, h).Name?;
    DecodeMono(a, b, pos, h);
    StartsMono(a, b, pos, h);
    forall x | x in Starts(a, pos)
      ensures Decodes(a, x)
    {
      StartsDecode(a, pos, h, x);
    }
  }

  lemma ThriftyMono(a: Image, b: Image, ms: seq<Mention>)
    requires Agree(a, b) && AllDecode(a, ms) && Thrifty(a, ms)
    ensures AllDecode(b, ms) && Thrifty(b, ms)
    ensures forall k :: 0 <= k < |ms| ==> Starts(b, ms[k].pos) == Starts(a, ms[k].pos)
  {
    hide Decodes, Agree, Starts, Twins;
    forall k | 0 <= k < |ms|
      ensures Decodes(b, ms[k].pos) && Starts(b, ms[k].pos) == Starts(a, ms[k].pos)
      ensures forall x :: x in Starts(a, ms[k].pos) ==> Decodes(a, x)
    {
      MentionMono(a, b, ms[k].pos);
    }
    forall i, k, x, y | 0 <= i < k < |ms| && ms[k].compress && x in Starts(b, ms[k].pos)
                        && y in Starts(b, ms[i].pos) && y < 16384
      ensures !Twins(b, x, y)
    {
      if Twins(b, x, y) {
        TwinsBack(a, b, x, y);
      }
    }
  }

  lemma LeanMono(a: Image, b: Image, ms: seq<Mention>, lmap: seq<Entry>)
    requires Agree(a, b) && Lean(a, ms, lmap)
    ensures Lean(b, ms, lmap)
  {
    hide Decodes, Agree, Starts, Twins, AllDecode, Thrifty, Offsets;
    ThriftyMono(a, b, ms);
  }

  // ---- a name written ----

  /** The first k labels, spelled out. */
  lemma {:induction false} EncodedAt(ls: seq<seq<byte>>, k: nat) returns (front: seq<byte>)
    requires GoodLabels(ls) && k <= |ls|
    ensures Encoded(ls, 0) == front + Encoded(ls, k) && |front| == Before(ls, k)
  {
    hide Encoded;
    if k == 0 {
      front := [];
    } else {
      front := EncodedAt(ls, k - 1);
      EncodedStarts(ls, k - 1);
      EncodedStep(ls, front, k - 1, ls[k - 1]);
      front := front + [|ls[k - 1]|] + ls[k - 1];
    }
  }

  /** The byte at which the k-th label begins, or the zero at the end. */
  lemma EncodedByte(ls: seq<seq<byte>>, k: nat)
    requires GoodLabels(ls) && k <= |ls|
    ensures Before(ls, k) < |Encoded(ls, 0)|
    ensures Encoded(ls, 0)[Before(ls, k)] == if k < |ls| then |ls[k]| else 0
  {
    EncodedStarts(ls, k);
    hide Encoded, Before;
    var front := EncodedAt(ls, k);
    assert Encoded(ls, 0)[|front|] == Encoded(ls, k)[0];
  }

  lemma AbridgedOut(lmap: seq<Entry>, pos: nat, ls: seq<seq<byte>>, compress: bool, full: nat, out: seq<byte>,
                    lmap': seq<Entry>)
    requires GoodLabels(ls) && Abridged(lmap, pos, ls, compress, full, out, lmap')
    ensures full <= |ls| && (full == |ls| ==> out == Encoded(ls, 0))
    ensures full < |ls| ==>
      && |out| == Before(ls, full) + 2 && Before(ls, full) <= |Encoded(ls, 0)|
      && out[..Before(ls, full)] == Encoded(ls, 0)[..Before(ls, full)] && out[Before(ls, full)] >= 0xc0
  {
    hide Encoded, Remembers, Dotted, Before, SameText;
  }

  /** The labels written in full begin where they should, and no further label follows. */
  lemma AbridgedBytes(lmap: seq<Entry>, pos: nat, ls: seq<seq<byte>>, compress: bool, full: nat, out: seq<byte>,
                      lmap': seq<Entry>, k: nat)
    requires GoodLabels(ls) && Abridged(lmap, pos, ls, compress, full, out, lmap') && k <= full
    ensures k <= |ls| && (k < full ==> k < |ls|) && Before(ls, k) < |out|
    ensures if k < full then out[Before(ls, k)] == |ls[k]| else out[Before(ls, k)] == 0 || out[Before(ls, k)] >= 0xc0
  {
    hide *;
    AbridgedOut(lmap, pos, ls, compress, full, out, lmap');
    EncodedByte(ls, k);
    if k < full {
      BeforeGrows(ls, k + 1, full);
      BeforeStep(ls, k);
    }
    if k < full && full < |ls| {
      assert out[..Before(ls, full)][Before(ls, k)] == Encoded(ls, 0)[..Before(ls, full)][Before(ls, k)];
    }
  }

  lemma BeforeStep(ls: seq<seq<byte>>, k: nat)
    requires k < |ls|
    ensures Before(ls, k + 1) == Before(ls, k) + 1 + |ls[k]|
  {
  }

  /** The labels that a written name spells out are those written in full, and each stands for itself and
      those after it. */
  lemma {:induction false} SpelledOut(b: Image, p: nat, lmap: seq<Entry>, ls: seq<seq<byte>>, compress: bool, full: nat,
                                      out: seq<byte>, lmap': seq<Entry>, k: nat, h: nat, x: nat)
      returns (m: nat)
    requires GoodLabels(ls) && Abridged(lmap, p, ls, compress, full, out, lmap') && k <= full <= |ls|
    requires BytesAt(b, p, out) && NamedAt(b, p + Before(ls, k), ls[k..], h) && x in Starts(b, p + Before(ls, k))
    ensures k <= m < full && x == p + Before(ls, m) && NamedAt(b, x, ls[m..], h)
    decreases full - k
  {
    hide *;
    var at := p + Before(ls, k);
    AbridgedBytes(lmap, p, ls, compress, full, out, lmap', k);
    ByteThere(b, p, out, Before(ls, k));
    StartsAt(b, at);
    BeforeStep(ls, k);
    if x == at {
      m := k;
    } else {
      NamedRest(b, at, ls, k, h);
      m := SpelledOut(b, p, lmap, ls, compress, full, out, lmap', k + 1, h, x);
    }
  }

  lemma StartsAt(b: Image, at: nat)
    requires at < |b|
    ensures if b[at] <= 0 || b[at] >= 0xc0 then Starts(b, at) == []
            else Starts(b, at) == [at] + Starts(b, at + 1 + b[at])
  {
  }

  lemma ByteThere(b: Image, p: nat, out: seq<byte>, k: nat)
    requires BytesAt(b, p, out) && k < |out|
    ensures p + k < |b| && b[p + k] == out[k]
  {
  }

  lemma NamedRest(b: Image, at: nat, ls: seq<seq<byte>>, k: nat, h: nat)
    requires k < |ls| && NamedAt(b, at, ls[k..], h) && at < |b| && 0 < b[at] < 0xc0
    ensures NamedAt(b, at + 1 + b[at], ls[k + 1..], h)
  {
    var next := at + 1 + b[at];
    var rest := Decode(b, next, h).labels;
    var got := Decode(b, at, h).labels;
    assert got == [b[at + 1..next]] + rest;
    hide Decode;
    assert rest == got[1..];
    assert LowerAll(rest) == LowerAll(got)[1..];
    assert LowerAll(ls[k + 1..]) == LowerAll(ls[k..])[1..];
  }

  // ---- one more name ----

  /** What a new name spells out is remembered, as far as it is in reach. */
  lemma NewCovered(lmap: seq<Entry>, pos: nat, ls: seq<seq<byte>>, full: nat, lmap': seq<Entry>, m: nat)
    requires m < full <= |ls| && Remembers(lmap, pos, ls, full, lmap') && pos + Before(ls, m) < 16384
    ensures Offsets(lmap', pos + Before(ls, m))
  {
    var n := |lmap'| - |lmap|;
    if n <= m {
      BeforeGrows(ls, n, m);
    }
    hide Before, Dotted;
    assert lmap'[|lmap| + m].offset == pos + Before(ls, m);
  }

  lemma OffsetsMore(lmap: seq<Entry>, lmap': seq<Entry>, y: nat)
    requires lmap <= lmap' && Offsets(lmap, y)
    ensures Offsets(lmap', y)
  {
    var i :| 0 <= i < |lmap| && lmap[i].offset == y;
    assert lmap'[i].offset == y;
  }

  /** The labels at an offset in the map are the entry's. */
  lemma EntryLabels(img: Image, lmap: seq<Entry>, y: nat, low: bool) returns (i: nat)
    requires MapOk(img, lmap, low) && Offsets(lmap, y)
    ensures i < |lmap| && lmap[i].name == Dotted(Tokens(lmap[i].name))
    ensures NamedAt(img, y, Tokens(lmap[i].name), |Tokens(lmap[i].name)|)
  {
    hide NamedLow, Tokens, Dotted;
    i :| 0 <= i < |lmap| && lmap[i].offset == y;
    assert EntryOk(img, lmap[i], low);
    EntryNamed(img, lmap[i], low);
  }

  lemma EntryNamed(img: Image, e: Entry, low: bool)
    requires EntryOk(img, e, low)
    ensures e.name == Dotted(Tokens(e.name)) && NamedAt(img, e.offset, Tokens(e.name), |Tokens(e.name)|)
  {
    hide Decode;
    DecodeMore(img, e.offset, |Tokens(e.name)| - 1, |Tokens(e.name)|);
  }

  lemma TwinsSame(img: Image, x: nat, y: nat, ls: seq<seq<byte>>, h: nat, ks: seq<seq<byte>>, g: nat)
    requires Twins(img, x, y) && NamedAt(img, x, ls, h) && NamedAt(img, y, ks, g)
    ensures SameLabels(ks, ls)
  {
    hide Decode;
    var t: nat :| Decode(img, x, t).Name? && Decode(img, y, t).Name?
      && SameLabels(Decode(img, x, t).labels, Decode(img, y, t).labels);
    var most := t + h + g;
    DecodeMore(img, x, t, most);
    DecodeMore(img, x, h, most);
    DecodeMore(img, y, t, most);
    DecodeMore(img, y, g, most);
  }

  lemma NamedMono(a: Image, b: Image, pos: nat, ls: seq<seq<byte>>, h: nat)
    requires Agree(a, b) && NamedAt(a, pos, ls, h)
    ensures NamedAt(b, pos, ls, h)
  {
    hide Decode;
    DecodeMono(a, b, pos, h);
  }

  lemma AbridgedFresh(lmap: seq<Entry>, pos: nat, ls: seq<seq<byte>>, full: nat, out: seq<byte>, lmap': seq<Entry>,
                      m: nat, i: nat)
    requires GoodLabels(ls) && Abridged(lmap, pos, ls, true, full, out, lmap') && m < full && i < |lmap|
    ensures full <= |ls| && !SameText(lmap[i].name, Dotted(ls[m..]))
  {
    hide Encoded, Remembers, Dotted, Before, SameText, FirstHit;
  }

  /** What a compressed name spells out has not been in reach before. */
  lemma NewApart(img: Image, out: seq<byte>, lmap: seq<Entry>, ls: seq<seq<byte>>, full: nat, lmap': seq<Entry>,
                 low: bool, h: nat, m: nat, y: nat)
    requires MapOk(img, lmap, low) && GoodLabels(ls) && Abridged(lmap, |img|, ls, true, full, out, lmap')
    requires m < full <= |ls| && NamedAt(img + out, |img| + Before(ls, m), ls[m..], h) && Offsets(lmap, y)
    ensures !Twins(img + out, |img| + Before(ls, m), y)
  {
    hide Decode, Abridged, Before, Tokens, Dotted, Twins, Offsets, NamedAt, MapOk, SameText, SameLabels;
    var i := EntryLabels(img, lmap, y, low);
    var ks := Tokens(lmap[i].name);
    NamedMono(img, img + out, y, ks, |ks|);
    AbridgedFresh(lmap, |img|, ls, full, out, lmap', m, i);
    if Twins(img + out, |img| + Before(ls, m), y) {
      TwinsSame(img + out, |img| + Before(ls, m), y, ls[m..], h, ks, |ks|);
      DottedSame(ks, ls[m..]);
    }
  }

  lemma AbridgedMap(lmap: seq<Entry>, pos: nat, ls: seq<seq<byte>>, compress: bool, full: nat, out: seq<byte>,
                    lmap': seq<Entry>)
    requires GoodLabels(ls) && Abridged(lmap, pos, ls, compress, full, out, lmap')
    ensures full <= |ls| && Remembers(lmap, pos, ls, full, lmap') && lmap <= lmap'
  {
    hide Encoded, Dotted, Before, SameText, FirstHit;
  }

  /** A label that a new name spells out: it is remembered if in reach, and new if the name may be compressed. */
  lemma NewStart(img: Image, out: seq<byte>, lmap: seq<Entry>, ls: seq<seq<byte>>, compress: bool, full: nat,
                 lmap': seq<Entry>, low: bool, h: nat, x: nat)
    requires MapOk(img, lmap, low) && GoodLabels(ls) && Abridged(lmap, |img|, ls, compress, full, out, lmap')
    requires NamedAt(img + out, |img|, ls, h) && x in Starts(img + out, |img|)
    ensures x < 16384 ==> Offsets(lmap', x)
    ensures compress ==> forall y :: Offsets(lmap, y) ==> !Twins(img + out, x, y)
  {
    hide *;
    AbridgedMap(lmap, |img|, ls, compress, full, out, lmap');
    BeforeNone(ls);
    assert ls[0..] == ls;
    BytesThere(img, out);
    var m := SpelledOut(img + out, |img|, lmap, ls, compress, full, out, lmap', 0, h, x);
    if x < 16384 {
      NewCovered(lmap, |img|, ls, full, lmap', m);
    }
    if compress {
      forall y | Offsets(lmap, y)
        ensures !Twins(img + out, x, y)
      {
        NewApart(img, out, lmap, ls, full, lmap', low, h, m, y);
      }
    }
  }

  lemma BeforeNone(ls: seq<seq<byte>>)
    ensures Before(ls, 0) == 0
  {
  }

  lemma BytesThere(img: Image, out: seq<byte>)
    ensures BytesAt(img + out, |img|, out)
  {
  }

  /** Writing a name keeps the map complete, and compression with it. */
  lemma LeanName(img: Image, out: seq<byte>, ms: seq<Mention>, lmap: seq<Entry>, ls: seq<seq<byte>>, compress: bool,
                 full: nat, lmap': seq<Entry>, low: bool, h: nat)
    requires Lean(img, ms, lmap) && MapOk(img, lmap, low) && GoodLabels(ls)
    requires Abridged(lmap, |img|, ls, compress, full, out, lmap') && NamedAt(img + out, |img|, ls, h)
    ensures Lean(img + out, ms + [Mention(|img|, compress)], lmap')
  {
    hide Abridged, Twins, Starts, Offsets, MapOk;
    var b, more := img + out, ms + [Mention(|img|, compress)];
    AbridgedMap(lmap, |img|, ls, compress, full, out, lmap');
    LeanMono(img, b, ms, lmap);
    forall x | x in Starts(b, |img|)
      ensures x < 16384 ==> Offsets(lmap', x)
      ensures compress ==> forall y :: Offsets(lmap, y) ==> !Twins(b, x, y)
    {
      NewStart(img, out, lmap, ls, compress, full, lmap', low, h, x);
    }
    forall y | Offsets(lmap, y)
      ensures Offsets(lmap', y)
    {
      OffsetsMore(lmap, lmap', y);
    }
    hide Decode, SameLabels;
    assert AllDecode(b, more) by {
      assert Decode(b, |img|, h).Name?;
    }
    LeanFolds(b, ms, Mention(|img|, compress), lmap, lmap');
  }

  lemma LeanFolds(b: Image, ms: seq<Mention>, m: Mention, lmap: seq<Entry>, lmap': seq<Entry>)
    requires Lean(b, ms, lmap) && AllDecode(b, ms + [m])
    requires forall y :: Offsets(lmap, y) ==> Offsets(lmap', y)
    requires forall x :: x in Starts(b, m.pos) && x < 16384 ==> Offsets(lmap', x)
    requires forall x, y :: x in Starts(b, m.pos) && m.compress && Offsets(lmap, y) ==> !Twins(b, x, y)
    ensures Lean(b, ms + [m], lmap')
  {
    hide Twins, Starts, Offsets, AllDecode;
    var more := ms + [m];
    forall i, k, x, y | 0 <= i < k < |more| && more[k].compress && x in Starts(b, more[k].pos)
                        && y in Starts(b, more[i].pos) && y < 16384
      ensures !Twins(b, x, y)
    {
      assert more[i] == ms[i];
    }
  }

  /** A name that is nothing but a pointer spells out no label. */
  lemma LeanPointer(img: Image, out: seq<byte>, ms: seq<Mention>, lmap: seq<Entry>, compress: bool)
    requires Lean(img, ms, lmap) && |out| == 2 && out[0] >= 0xc0 && Decodes(img + out, |img|)
    ensures Lean(img + out, ms + [Mention(|img|, compress)], lmap)
  {
    hide Twins, Offsets, Decodes;
    var b := img + out;
    LeanMono(img, b, ms, lmap);
    StartsAt(b, |img|);
    hide Starts;
    LeanFolds(b, ms, Mention(|img|, compress), lmap, lmap);
  }

  // ---- the names of a packet ----

  /** The names among the first n data fields of a record, whose data begin at pos. */
  function FieldMentions(pos: nat, fs: seq<Field>, ends: seq<nat>, n: nat): (ms: seq<Mention>)
    requires n <= |fs| == |ends|
  {
    if n == 0 then []
    else
      FieldMentions(pos, fs, ends, n - 1)
      + match fs[n - 1]
        case Blob(_) => []
        case Domain(_, compress) => [Mention(StartOf(pos, ends, n - 1), compress)]
  }

  /** Every record has one end for each data field. */
  predicate Shaped(rs: seq<Record>, lay: seq<Slot>)
  {
    |lay| == |rs| && forall i :: 0 <= i < |rs| ==> |lay[i].fends| == |rs[i].rdata|
  }

  /** The names of a record whose owner name ends at e. */
  function RecordMentions(r: Record, at: Slot, e: nat): (ms: seq<Mention>)
    requires |at.fends| == |r.rdata|
  {
    [Mention(at.start, true)] + FieldMentions(e + 10, r.rdata, at.fends, |r.rdata|)
  }

  /** The names of the question and the first n records, in the order in which they stand. Owner names and the
      data names marked so may be compressed. */
  function Mentions(img: Image, rs: seq<Record>, lay: seq<Slot>, n: nat): (ms: seq<Mention>)
    requires Shaped(rs, lay) && n <= |rs|
  {
    if n == 0 then [Mention(12, false)]
    else
      var e := NameEnd(img, lay[n - 1].start);
      Mentions(img, rs, lay, n - 1) + RecordMentions(rs[n - 1], lay[n - 1], if e < 0 then 0 else e)
  }

  /** The packet is compressed as far as its writer can: no name that may be compressed spells out what an
      earlier name has in reach of a pointer. */
  ghost predicate Concise(img: Image, rs: seq<Record>, lay: seq<Slot>)
  {
    && Shaped(rs, lay)
    && AllDecode(img, Mentions(img, rs, lay, |rs|)) && Thrifty(img, Mentions(img, rs, lay, |rs|))
  }

  lemma AllDecodeFront(img: Image, a: seq<Mention>, b: seq<Mention>)
    requires AllDecode(img, a + b)
    ensures AllDecode(img, a) && AllDecode(img, b)
  {
    hide Decodes;
    forall k | 0 <= k < |a|
      ensures Decodes(img, a[k].pos)
    {
      assert (a + b)[k] == a[k];
    }
    forall k | 0 <= k < |b|
      ensures Decodes(img, b[k].pos)
    {
      assert (a + b)[|a| + k] == b[k];
    }
  }

  lemma {:induction false} MentionsMono(a: Image, b: Image, rs: seq<Record>, lay: seq<Slot>, n: nat)
    requires Agree(a, b) && Shaped(rs, lay) && n <= |rs| && AllDecode(a, Mentions(a, rs, lay, n))
    ensures Mentions(b, rs, lay, n) == Mentions(a, rs, lay, n)
  {
    hide Decodes, FieldMentions, NameEnd, Agree, AllDecode;
    if n > 0 {
      var e := NameEnd(a, lay[n - 1].start);
      var own := RecordMentions(rs[n - 1], lay[n - 1], if e < 0 then 0 else e);
      AllDecodeFront(a, Mentions(a, rs, lay, n - 1), own);
      MentionsMono(a, b, rs, lay, n - 1);
      assert Decodes(a, own[0].pos) by {
        FirstDecodes(a, own);
      }
      MentionMono(a, b, lay[n - 1].start);
    }
  }

  lemma FirstDecodes(img: Image, ms: seq<Mention>)
    requires AllDecode(img, ms) && ms != []
    ensures Decodes(img, ms[0].pos)
  {
  }

  lemma ConciseMono(a: Image, b: Image, rs: seq<Record>, lay: seq<Slot>)
    requires Agree(a, b) && Concise(a, rs, lay)
    ensures Concise(b, rs, lay)
  {
    hide AllDecode, Thrifty, Mentions, Shaped, Agree;
    MentionsMono(a, b, rs, lay, |rs|);
    ThriftyMono(a, b, Mentions(a, rs, lay, |rs|));
  }

  /** A record more: the names before keep their places. */
  lemma MentionsMore(img: Image, rs: seq<Record>, lay: seq<Slot>, r: Record, at: Slot, n: nat)
    requires Shaped(rs, lay) && |at.fends| == |r.rdata| && n <= |rs|
    ensures Shaped(rs + [r], lay + [at]) && Mentions(img, rs + [r], lay + [at], n) == Mentions(img, rs, lay, n)
  {
    hide NameEnd, RecordMentions;
    if n > 0 {
      MentionsMore(img, rs, lay, r, at, n - 1);
    }
  }

  lemma FieldMentionsMore(pos: nat, fs: seq<Field>, ends: seq<nat>, f: Field, end: nat, n: nat)
    requires n <= |fs| == |ends|
    ensures FieldMentions(pos, fs + [f], ends + [end], n) == FieldMentions(pos, fs, ends, n)
  {
    if n > 0 {
      FieldMentionsMore(pos, fs, ends, f, end, n - 1);
    }
  }

  lemma {:induction false} OwnerMention(img: Image, rs: seq<Record>, lay: seq<Slot>, i: nat, n: nat)
    requires Shaped(rs, lay) && i < n <= |rs|
    ensures Mentions(img, rs, lay, i) + [Mention(lay[i].start, true)] <= Mentions(img, rs, lay, n)
    decreases n
  {
    hide FieldMentions, NameEnd;
    if i < n - 1 {
      OwnerMention(img, rs, lay, i, n - 1);
    }
  }

  /** A record owner that stands spelled out in reach of a pointer is not spelled out again: a later record of
      the same owner has a pointer of two bytes. */
  lemma OwnerOnce(img: Image, rs: seq<Record>, lay: seq<Slot>, i: nat, j: nat, h: nat)
    requires Concise(img, rs, lay) && i < j < |rs| && lay[i].start < 16384
    requires lay[i].start < |img| && 0 < img[lay[i].start] < 0xc0
    requires NamedAt(img, lay[i].start, Labels(rs[i].name), h) && NamedAt(img, lay[j].start, Labels(rs[j].name), h)
    requires SameText(rs[i].name, rs[j].name)
    ensures NameEnd(img, lay[j].start) == lay[j].start + 2
  {
    SameTextSameNames(rs[i].name, rs[j].name);
    var a, b := Mentions(img, rs, lay, i), Mentions(img, rs, lay, j);
    OwnerMention(img, rs, lay, i, j);
    OwnerMention(img, rs, lay, j, |rs|);
    var ms := Mentions(img, rs, lay, |rs|);
    assert |a| < |b| && ms[|a|] == b[|a|] == Mention(lay[i].start, true) && ms[|b|] == Mention(lay[j].start, true);
    var x, y := lay[j].start, lay[i].start;
    assert y in Starts(img, y);
    assert Twins(img, x, y);
    hide Twins, Mentions, AllDecode;
    assert x !in Starts(img, x);
    NotRoot(img, x, y, h, Labels(rs[i].name), Labels(rs[j].name));
  }

  /** Labels that are spelled out at y are some, so there is more than a zero at x. */
  lemma NotRoot(img: Image, x: nat, y: nat, h: nat, ks: seq<seq<byte>>, ls: seq<seq<byte>>)
    requires NamedAt(img, y, ks, h) && NamedAt(img, x, ls, h) && SameLabels(ks, ls)
    requires y < |img| && 0 < img[y] < 0xc0
    ensures x < |img| && img[x] > 0 && (img[x] >= 0xc0 ==> NameEnd(img, x) == x + 2)
  {
    assert |ls| == |LowerAll(ls)| == |LowerAll(ks)| == |ks|;
    assert |Decode(img, y, h).labels| == |LowerAll(Decode(img, y, h).labels)| == |LowerAll(ks)|;
    assert |Decode(img, x, h).labels| == |LowerAll(Decode(img, x, h).labels)| == |LowerAll(ls)|;
  }

  // ---- while a record is open ----

  /** The names of the finished records, and those of the open one so far. */
  function OpenMentions(frame: Image, rs: seq<Record>, lay: seq<Slot>, start: nat, clen: nat, r: Record,
                        fends: seq<nat>): (ms: seq<Mention>)
    requires Shaped(rs, lay) && |fends| == |r.rdata|
  {
    Mentions(frame, rs, lay, |rs|) + [Mention(start, true)] + FieldMentions(clen + 10, r.rdata, fends, |r.rdata|)
  }

  lemma MentionsOpen(frame: Image, rs: seq<Record>, lay: seq<Slot>, start: nat, clen: nat, r: Record)
    requires Shaped(rs, lay) && r.rdata == []
    ensures OpenMentions(frame, rs, lay, start, clen, r, []) == Mentions(frame, rs, lay, |rs|) + [Mention(start, true)]
  {
    hide Mentions;
  }

  lemma MentionsField(frame: Image, rs: seq<Record>, lay: seq<Slot>, start: nat, clen: nat, r: Record, fends: seq<nat>,
                      f: Field, end: nat)
    requires Shaped(rs, lay) && |fends| == |r.rdata|
    ensures
      var ms := OpenMentions(frame, rs, lay, start, clen, r, fends);
      OpenMentions(frame, rs, lay, start, clen, r.(rdata := r.rdata + [f]), fends + [end])
      == match f
         case Blob(_) => ms
         case Domain(_, compress) => ms + [Mention(StartOf(clen + 10, fends, |fends|), compress)]
  {
    hide Mentions;
    FieldMentionsMore(clen + 10, r.rdata, fends, f, end, |r.rdata|);
    var start' := StartOf(clen + 10, fends, |fends|);
    assert StartOf(clen + 10, fends + [end], |fends|) == start';
    assert FieldMentions(clen + 10, r.rdata + [f], fends + [end], |r.rdata| + 1)
      == FieldMentions(clen + 10, r.rdata, fends, |r.rdata|)
         + match f
           case Blob(_) => []
           case Domain(_, compress) => [Mention(start', compress)];
  }

  /** The record is finished where its name has come to stand. */
  lemma MentionsClose(frame: Image, closed: Image, rs: seq<Record>, lay: seq<Slot>, clen: nat, r: Record, at: Slot)
    requires Shaped(rs, lay) && |at.fends| == |r.rdata| && Agree(frame, closed)
    requires AllDecode(frame, Mentions(frame, rs, lay, |rs|)) && NameEnd(closed, at.start) == clen
    ensures Shaped(rs + [r], lay + [at])
    ensures Mentions(closed, rs + [r], lay + [at], |rs| + 1)
      == OpenMentions(frame, rs, lay, at.start, clen, r, at.fends)
  {
    hide NameEnd, FieldMentions, Agree, AllDecode;
    MentionsMore(closed, rs, lay, r, at, |rs|);
    MentionsMono(frame, closed, rs, lay, |rs|);
    assert Mentions(closed, rs + [r], lay + [at], |rs| + 1)
      == Mentions(closed, rs + [r], lay + [at], |rs|) + RecordMentions(r, at, clen);
  }
}
