/** The DNS message format of section 4.1 of RFC 1035 as an independent reference: what a
    name, a record and a list of records at a place in a message mean. */
module Wire {
  import opened Bytes
  import opened Names

  /** A message under construction. A cell of -1 is a hole: a byte that is not known yet (a
      record header still to be written) or that no name may point into (the 12-byte header). */
  type cell = x: int | -1 <= x < 256
  type Image = seq<cell>

  function Holes(n: nat): (r: Image)
    ensures |r| == n
    ensures forall i :: 0 <= i < n ==> r[i] == -1
  {
    seq(n, i => -1)
  }

  predicate Solid(img: Image, i: nat, j: nat)
  {
    j <= |img| && forall k :: i <= k < j ==> img[k] >= 0
  }

  datatype NameResult = Name(labels: seq<seq<byte>>) | OutOfRange | Loop

  function Room(img: Image, pos: nat): nat
  {
    if pos < |img| then |img| - pos else 0
  }

  /** The labels of the name at pos, following at most hops compression pointers. */
  function Decode(img: Image, pos: nat, hops: nat): (r: NameResult)
    decreases hops, Room(img, pos)
  {
    if pos >= |img| || img[pos] < 0 then OutOfRange
    else if img[pos] == 0 then Name([])
    else if img[pos] >= 0xc0 then
      if pos + 1 >= |img| || img[pos + 1] < 0 then OutOfRange
      else if hops == 0 then Loop
      else Decode(img, Target(img, pos), hops - 1)
    else
      var next := pos + 1 + img[pos];
      if !Solid(img, pos + 1, next) then OutOfRange
      else match Decode(img, next, hops)
        case Name(ls) => Name([img[pos + 1..next]] + ls)
        case e => e
  }

  function Target(img: Image, pos: nat): (r: nat)
    requires pos + 1 < |img| && img[pos] >= 0xc0 && img[pos + 1] >= 0
  {
    var hi: int := img[pos];
    256 * (hi - 0xc0) + img[pos + 1]
  }

  /** The place after the name at pos, pointers not followed; -1 if it runs off the message. */
  function NameEnd(img: Image, pos: nat): (e: int)
    ensures e == -1 || pos < e <= |img|
    decreases Room(img, pos)
  {
    if pos >= |img| || img[pos] < 0 then -1
    else if img[pos] == 0 then pos + 1
    else if img[pos] >= 0xc0 then (if pos + 1 < |img| then pos + 2 else -1)
    else NameEnd(img, pos + 1 + img[pos])
  }

  lemma {:induction false} DecodeEnd(img: Image, pos: nat, hops: nat)
    requires Decode(img, pos, hops).Name?
    ensures NameEnd(img, pos) >= 0
    decreases Room(img, pos)
  {
    if img[pos] != 0 && img[pos] < 0xc0 {
      DecodeEnd(img, pos + 1 + img[pos], hops);
    }
  }

  /** b continues a: holes may have been filled and bytes appended. */
  ghost predicate Agree(a: Image, b: Image)
  {
    |a| <= |b| && forall i :: 0 <= i < |a| ==> a[i] == -1 || a[i] == b[i]
  }

  lemma {:induction false} DecodeMono(a: Image, b: Image, pos: nat, hops: nat)
    requires Agree(a, b) && Decode(a, pos, hops).Name?
    ensures Decode(b, pos, hops) == Decode(a, pos, hops)
    ensures NameEnd(b, pos) == NameEnd(a, pos)
    decreases hops, Room(a, pos)
  {
    if a[pos] == 0 {
    } else if a[pos] >= 0xc0 {
      DecodeMono(a, b, Target(a, pos), hops - 1);
    } else {
      var next := pos + 1 + a[pos];
      DecodeMono(a, b, next, hops);
      assert b[pos + 1..next] == a[pos + 1..next];
    }
  }

  lemma {:induction false} DecodeMore(a: Image, pos: nat, hops: nat, more: nat)
    requires Decode(a, pos, hops).Name? && hops <= more
    ensures Decode(a, pos, more) == Decode(a, pos, hops)
    decreases hops, Room(a, pos)
  {
    if a[pos] == 0 {
    } else if a[pos] >= 0xc0 {
      DecodeMore(a, Target(a, pos), hops - 1, more - 1);
    } else {
      DecodeMore(a, pos + 1 + a[pos], hops, more);
    }
  }

  /** The name at pos decodes, within hops pointers, to ls up to ASCII case. */
  ghost predicate NamedAt(img: Image, pos: nat, ls: seq<seq<byte>>, hops: nat)
  {
    Decode(img, pos, hops).Name? && SameLabels(Decode(img, pos, hops).labels, ls)
  }

  /** NamedAt, and if low is set the decoded labels have no capital letter. */
  ghost predicate NamedLow(img: Image, pos: nat, ls: seq<seq<byte>>, hops: nat, low: bool)
  {
    NamedAt(img, pos, ls, hops) && (low ==> LowerLabels(Decode(img, pos, hops).labels))
  }

  /** Pointers a written name may need: one per label, and one for "see question". */
  function Budget(ls: seq<seq<byte>>): (h: nat)
  {
    if |ls| == 0 then 1 else |ls|
  }

  // ---------------------------------------------------------------- records

  const OPT: u16 := 41
  const TSIG: u16 := 250

  datatype Field = Blob(data: seq<byte>) | Domain(name: seq<byte>, compress: bool)

  datatype Place = Answer | Authority | Additional

  datatype Record = Record(name: seq<byte>, qtype: u16, qclass: u16, ttl: u32, place: Place,
                           rdata: seq<Field>)

  predicate GoodField(f: Field)
  {
    f.Domain? ==> GoodName(f.name)
  }

  predicate GoodRecord(r: Record)
  {
    && GoodName(r.name)
    && forall i :: 0 <= i < |r.rdata| ==> GoodField(r.rdata[i])
  }

  ghost predicate BytesAt(img: Image, pos: nat, s: seq<byte>)
  {
    pos + |s| <= |img| && forall i :: 0 <= i < |s| ==> img[pos + i] == s[i]
  }

  lemma BytesMono(a: Image, b: Image, pos: nat, s: seq<byte>)
    requires Agree(a, b) && BytesAt(a, pos, s)
    ensures BytesAt(b, pos, s)
  {
    forall i | 0 <= i < |s|
      ensures b[pos + i] == s[i]
    {
      assert a[pos + i] == s[i];
    }
  }

  ghost predicate FieldAt(img: Image, pos: nat, f: Field, end: int)
  {
    match f
    case Blob(data) => BytesAt(img, pos, data) && end == pos + |data|
    case Domain(name, _) => NamedAt(img, pos, Labels(name), Budget(Labels(name))) && end == NameEnd(img, pos)
  }

  /** ends[i] is where the i-th field ends. */
  ghost predicate FieldsAt(img: Image, pos: nat, fs: seq<Field>, ends: seq<nat>)
  {
    && |ends| == |fs|
    && forall i :: 0 <= i < |fs| ==> FieldAt(img, StartOf(pos, ends, i), fs[i], ends[i])
  }

  /** Where the i-th of consecutive items begins: at pos, or where the one before it ends. */
  function StartOf(pos: nat, ends: seq<nat>, i: nat): (r: nat)
    requires i <= |ends|
  {
    if i == 0 then pos else ends[i - 1]
  }

  lemma FieldMono(a: Image, b: Image, pos: nat, f: Field, end: int)
    requires Agree(a, b) && FieldAt(a, pos, f, end)
    ensures FieldAt(b, pos, f, end)
  {
    match f
    case Blob(data) => BytesMono(a, b, pos, data);
    case Domain(name, _) => DecodeMono(a, b, pos, Budget(Labels(name)));
  }

  lemma FieldsMono(a: Image, b: Image, pos: nat, fs: seq<Field>, ends: seq<nat>)
    requires Agree(a, b) && FieldsAt(a, pos, fs, ends)
    ensures FieldsAt(b, pos, fs, ends)
  {
    forall i | 0 <= i < |fs|
      ensures FieldAt(b, StartOf(pos, ends, i), fs[i], ends[i])
    {
      FieldMono(a, b, StartOf(pos, ends, i), fs[i], ends[i]);
    }
  }

  lemma FieldsAppend(img: Image, pos: nat, fs: seq<Field>, ends: seq<nat>, f: Field, end: nat)
    requires FieldsAt(img, pos, fs, ends)
    requires FieldAt(img, StartOf(pos, ends, |ends|), f, end)
    ensures FieldsAt(img, pos, fs + [f], ends + [end])
  {
    forall i | 0 <= i < |fs + [f]|
      ensures FieldAt(img, StartOf(pos, ends + [end], i), (fs + [f])[i], (ends + [end])[i])
    {
      assert StartOf(pos, ends + [end], i) == StartOf(pos, ends, i);
    }
  }

  /** The fixed part of a resource record: type, class, TTL and length of the data. */
  function RecordHeader(r: Record, clen: u16): (h: seq<byte>)
    ensures |h| == 10
  {
    U16(r.qtype) + U16(r.qclass) + U32(r.ttl) + U16(clen)
  }

  /** Where a record begins and ends, and where each of its data fields ends. */
  datatype Slot = Slot(start: nat, end: nat, fends: seq<nat>)

  /** A record occupies a slot: its name, header and data fields. */
  ghost predicate RecordAt(img: Image, at: Slot, r: Record)
  {
    && GoodRecord(r)
    && NamedAt(img, at.start, Labels(r.name), Budget(Labels(r.name)))
    && var e := NameEnd(img, at.start);
    && 0 <= e && e + 10 <= at.end <= |img| && at.end - e - 10 < 0x10000
    && BytesAt(img, e, RecordHeader(r, at.end - e - 10))
    && FieldsAt(img, e + 10, r.rdata, at.fends)
    && StartOf(e + 10, at.fends, |at.fends|) == at.end
  }

  function LastEnd(pos: nat, lay: seq<Slot>, i: nat): (r: nat)
    requires i <= |lay|
  {
    if i == 0 then pos else lay[i - 1].end
  }

  /** Records one after the other, the first at pos. */
  ghost predicate RecordsAt(img: Image, pos: nat, rs: seq<Record>, lay: seq<Slot>)
  {
    && |lay| == |rs|
    && (forall i :: 0 <= i < |lay| ==> lay[i].start == LastEnd(pos, lay, i))
    && (forall i :: 0 <= i < |lay| ==> RecordAt(img, lay[i], rs[i]))
  }

  lemma RecordMono(a: Image, b: Image, at: Slot, r: Record)
    requires Agree(a, b) && RecordAt(a, at, r)
    ensures RecordAt(b, at, r)
  {
    hide RecordHeader, FieldsAt, Decode;
    DecodeMono(a, b, at.start, Budget(Labels(r.name)));
    var e := NameEnd(a, at.start);
    BytesMono(a, b, e, RecordHeader(r, at.end - e - 10));
    FieldsMono(a, b, e + 10, r.rdata, at.fends);
  }

  lemma RecordsMono(a: Image, b: Image, pos: nat, rs: seq<Record>, lay: seq<Slot>)
    requires Agree(a, b) && RecordsAt(a, pos, rs, lay)
    ensures RecordsAt(b, pos, rs, lay)
  {
    forall i | 0 <= i < |lay|
      ensures RecordAt(b, lay[i], rs[i])
    {
      RecordMono(a, b, lay[i], rs[i]);
    }
  }

  lemma RecordsAppend(img: Image, pos: nat, rs: seq<Record>, lay: seq<Slot>, r: Record, at: Slot)
    requires RecordsAt(img, pos, rs, lay)
    requires at.start == LastEnd(pos, lay, |lay|) && RecordAt(img, at, r)
    ensures RecordsAt(img, pos, rs + [r], lay + [at])
  {
    hide RecordAt;
  }

  /** Name and data of a record stand in an image whose record header is a hole: no name runs through it. */
  ghost predicate StandsAt(frame: Image, at: Slot, r: Record)
  {
    && NamedAt(frame, at.start, Labels(r.name), Budget(Labels(r.name)))
    && var e := NameEnd(frame, at.start);
    && 0 <= e && e + 10 <= at.end <= |frame| && (forall i :: e <= i < e + 10 ==> frame[i] == -1)
    && FieldsAt(frame, e + 10, r.rdata, at.fends)
  }

  /** Every record stands in the frame up to its own end: its names never point behind it. */
  ghost predicate Stands(frame: Image, rs: seq<Record>, lay: seq<Slot>)
  {
    |lay| == |rs|
    && forall i :: 0 <= i < |lay| ==> lay[i].end <= |frame| && StandsAt(frame[..lay[i].end], lay[i], rs[i])
  }

  lemma StandsWhole(frame: Image, rs: seq<Record>, lay: seq<Slot>, i: nat)
    requires Stands(frame, rs, lay) && i < |rs|
    ensures |lay| == |rs| && lay[i].end <= |frame| && StandsAt(frame[..lay[i].end], lay[i], rs[i])
    ensures StandsAt(frame, lay[i], rs[i])
  {
    hide StandsAt;
    StandsGrows(frame[..lay[i].end], frame, lay[i], rs[i]);
  }

  lemma StandsMore(a: Image, b: Image, rs: seq<Record>, lay: seq<Slot>, r: Record, at: Slot)
    requires Stands(a, rs, lay) && a <= b && StandsAt(b, at, r) && at.end == |b|
    ensures Stands(b, rs + [r], lay + [at])
  {
    hide StandsAt;
    assert b[..at.end] == b;
    forall i | 0 <= i < |lay|
      ensures lay[i].end <= |b| && StandsAt(b[..lay[i].end], lay[i], rs[i])
    {
      assert StandsAt(a[..lay[i].end], lay[i], rs[i]);
      assert a[..lay[i].end] == b[..lay[i].end];
    }
  }

  lemma StandsGrows(a: Image, b: Image, at: Slot, r: Record)
    requires StandsAt(a, at, r) && a <= b
    ensures StandsAt(b, at, r)
  {
    hide FieldsAt, Decode;
    DecodeMono(a, b, at.start, Budget(Labels(r.name)));
    FieldsMono(a, b, NameEnd(a, at.start) + 10, r.rdata, at.fends);
  }
}
