/** PacketReader: record headers and record data, by the shape registered for the type. */
module RecordReader {
  import opened Bytes
  import opened Names
  import opened Wire
  import opened MessageReader

  /** A value with the position after it, or a failure. */
  datatype Read<+T> = Got(value: T, pos: nat) | Fail(failure: Failure)

  /** The conversions a record type is built from: bytes of fixed length (integers, addresses),
      a blob preceded by its length in one or two bytes, the rest of the record, or a name. */
  datatype Shape = Fixed(n: nat) | Counted8 | Counted16 | Rest | DomainName

  datatype Item = Raw(data: seq<byte>) | Text(text: seq<byte>)

  /** The registered record types, by class and type (getTypemap). */
  type TypeMap = map<(u16, u16), seq<Shape>>

  datatype ParsedRecord = ParsedRecord(name: seq<byte>, qtype: u16, qclass: u16, ttl: u32, clen: u16,
                                       items: seq<Item>)

  /** mastermake: OPT is looked up under class 1, unknown types are copied whole. */
  function ShapesOf(types: TypeMap, qtype: u16, qclass: u16, clen: u16): (r: seq<Shape>)
  {
    var key := (if qtype == OPT then 1 else qclass, qtype);
    if key in types then types[key] else [Fixed(clen)]
  }

  function Take(content: seq<byte>, pos: nat, n: nat): (r: Read<seq<byte>>)
    ensures r.Got? ==> |r.value| == n && r.pos == pos + n
  {
    if n == 0 then Got([], pos)
    else if pos + n <= |content| then Got(content[pos..pos + n], pos + n) else Fail(Beyond)
  }

  function ReadText(content: seq<byte>, pos: nat): (r: Read<seq<byte>>)
  {
    match NameText(content, pos, [], HOPS)
    case Ok(t) => var e := After(content, pos); if e < 0 then Fail(Beyond) else Got(t, e)
    case Err(f) => Fail(f)
  }

  /** Everything from pos to the end of the record (xfrBlob without a length). */
  function ReadRest(content: seq<byte>, pos: nat, start: nat, clen: u16): (r: Read<seq<byte>>)
  {
    if clen == 0 || pos == start + clen then Got([], start + clen)
    else if pos >= |content| || start + clen > |content| then Fail(Beyond)
    else if pos > start + clen then Fail(Inverted)
    else Got(content[pos..start + clen], start + clen)
  }

  /** A length in w bytes and as many bytes after it. */
  function ReadCounted(content: seq<byte>, pos: nat, w: nat): (r: Read<seq<byte>>)
    requires w == 1 || w == 2
  {
    if pos + w > |content| then Fail(Beyond)
    else
      var n: int := if w == 1 then content[pos] else Get16(content[pos], content[pos + 1]);
      if pos + w + n > |content| then Fail(Beyond) else Got(content[pos..pos + w + n], pos + w + n)
  }

  function AsRaw(r: Read<seq<byte>>): (i: Read<Item>)
  {
    match r
    case Got(data, p) => Got(Raw(data), p)
    case Fail(f) => Fail(f)
  }

  function ReadItem(content: seq<byte>, pos: nat, shape: Shape, start: nat, clen: u16): (r: Read<Item>)
  {
    match shape
    case Fixed(n) => AsRaw(Take(content, pos, n))
    case Counted8 => AsRaw(ReadCounted(content, pos, 1))
    case Counted16 => AsRaw(ReadCounted(content, pos, 2))
    case Rest => AsRaw(ReadRest(content, pos, start, clen))
    case DomainName =>
      match ReadText(content, pos)
      case Got(t, p) => Got(Text(t), p)
      case Fail(f) => Fail(f)
  }

  /** The items from the i-th shape on, put after the ones already read. */
  function ReadItems(content: seq<byte>, pos: nat, shapes: seq<Shape>, items: seq<Item>, start: nat, clen: u16)
    : (r: Read<seq<Item>>)
    requires |items| <= |shapes|
    decreases |shapes| - |items|
  {
    if |items| == |shapes| then Got(items, pos)
    else match ReadItem(content, pos, shapes[|items|], start, clen)
      case Got(i, p) => ReadItems(content, p, shapes, items + [i], start, clen)
      case Fail(f) => Fail(f)
  }

  /** The ten header bytes of a record. */
  datatype Header = Header(qtype: u16, qclass: u16, ttl: u32, clen: u16)

  function HeaderOf(h: seq<byte>): (r: Header)
    requires |h| == 10
  {
    Header(Get16(h[0], h[1]), Get16(h[2], h[3]), Get32(h[4], h[5], h[6], h[7]), Get16(h[8], h[9]))
  }

  function ReadBody(content: seq<byte>, name: seq<byte>, h: Header, start: nat, types: TypeMap): (r: Read<ParsedRecord>)
  {
    match ReadItems(content, start, ShapesOf(types, h.qtype, h.qclass, h.clen), [], start, h.clen)
    case Got(items, p) => Got(ParsedRecord(name, h.qtype, h.qclass, h.ttl, h.clen, items), p)
    case Fail(f) => Fail(f)
  }

  function ReadRecord(content: seq<byte>, pos: nat, types: TypeMap): (r: Read<ParsedRecord>)
  {
    match ReadText(content, pos)
    case Fail(f) => Fail(f)
    case Got(name, p) =>
      match Take(content, p, 10)
      case Fail(f) => Fail(f)
      case Got(h, start) => ReadBody(content, name, HeaderOf(h), start, types)
  }

  // ---------------------------------------------------------------- written records are read back

  /** The shape a field was written for. */
  predicate Fits(f: Field, s: Shape)
  {
    match f
    case Domain(_, _) => s.DomainName?
    case Blob(d) =>
      match s
      case Fixed(n) => |d| == n
      case Counted8 => |d| >= 1 && |d| - 1 == d[0]
      case Counted16 => |d| >= 2 && |d| - 2 == Get16(d[0], d[1])
      case Rest => true
      case DomainName => false
  }

  /** The data fields follow the shapes of the record's type; Rest only comes last. */
  predicate Conforms(r: Record, shapes: seq<Shape>)
  {
    && |r.rdata| == |shapes|
    && (forall i :: 0 <= i < |shapes| ==> Fits(r.rdata[i], shapes[i]))
    && forall i :: 0 <= i < |shapes| - 1 ==> !shapes[i].Rest?
  }

  /** A written name may need a pointer for each label; the reader follows ten. */
  predicate ShortName(name: seq<byte>)
  {
    |Labels(name)| <= 10
  }

  predicate ShortNames(r: Record)
  {
    ShortName(r.name) && forall i :: 0 <= i < |r.rdata| ==> r.rdata[i].Domain? ==> ShortName(r.rdata[i].name)
  }

  /** What a reader gets for a name: its text up to ASCII case, escaped, with a trailing dot. */
  predicate ReadsAs(text: seq<byte>, name: seq<byte>)
  {
    SameText(text, Present(Labels(name)))
  }

  predicate ItemMatches(i: Item, f: Field)
  {
    match f
    case Blob(d) => i == Raw(d)
    case Domain(name, _) => i.Text? && ReadsAs(i.text, name)
  }

  predicate RecordMatches(p: ParsedRecord, r: Record)
  {
    && ReadsAs(p.name, r.name)
    && p.qtype == r.qtype && p.qclass == r.qclass && p.ttl == r.ttl
    && |p.items| == |r.rdata|
    && forall i :: 0 <= i < |p.items| ==> ItemMatches(p.items[i], r.rdata[i])
  }

  lemma NameReads(content: seq<byte>, at: nat, name: seq<byte>)
    requires NamedAt(Img(content), 12 + at, Labels(name), Budget(Labels(name))) && ShortName(name)
    ensures ReadText(content, at).Got? && ReadsAs(ReadText(content, at).value, name)
    ensures 12 + ReadText(content, at).pos == NameEnd(Img(content), 12 + at)
  {
    var ls := Labels(name);
    var img := Img(content);
    DecodeMore(img, 12 + at, Budget(ls), HOPS);
    DecodeEnd(img, 12 + at, HOPS);
    var got := Decode(img, 12 + at, HOPS).labels;
    TextIsPresent(got);
    hide Decode, NameEnd, Img, Present, Labels, Join;
    PresentSame(got, ls);
  }

  lemma BlobReads(content: seq<byte>, at: nat, d: seq<byte>)
    requires BytesAt(Img(content), 12 + at, d)
    ensures at + |d| <= |content| && content[at..at + |d|] == d
  {
    forall i | 0 <= i < |d|
      ensures content[at + i] == d[i]
    {
      assert Img(content)[12 + at + i] == d[i];
    }
  }

  lemma ItemReads(content: seq<byte>, at: nat, f: Field, s: Shape, start: nat, clen: u16, end: nat)
    requires FieldAt(Img(content), 12 + at, f, 12 + end) && Fits(f, s)
    requires f.Domain? ==> ShortName(f.name)
    requires start <= at && (s.Rest? ==> end == start + clen)
    ensures var r := ReadItem(content, at, s, start, clen);
            r.Got? && r.pos == end && ItemMatches(r.value, f)
  {
    hide Img, ReadText, ReadsAs, ShortName;
    match f
    case Domain(name, _) => NameReads(content, at, name);
    case Blob(d) =>
      BlobReads(content, at, d);
      if d != [] {
        assert content[at] == d[0];
        if |d| >= 2 {
          assert content[at + 1] == d[1];
        }
      }
  }

  /** The data fields are read one by one; the first |items| have been read already. */
  lemma {:induction false} ItemsRead(content: seq<byte>, pos: nat, r: Record, shapes: seq<Shape>, fends: seq<nat>,
                                     items: seq<Item>, start: nat, clen: u16)
    requires Conforms(r, shapes) && ShortNames(r) && |items| <= |shapes| && start <= pos
    requires FieldsAt(Img(content), 12 + start, r.rdata, fends)
    requires StartOf(12 + start, fends, |items|) == 12 + pos
    requires StartOf(12 + start, fends, |fends|) == 12 + start + clen
    requires forall i :: 0 <= i < |items| ==> ItemMatches(items[i], r.rdata[i])
    ensures var got := ReadItems(content, pos, shapes, items, start, clen);
            && got.Got? && got.pos == start + clen && |got.value| == |r.rdata|
            && forall i :: 0 <= i < |got.value| ==> ItemMatches(got.value[i], r.rdata[i])
    decreases |shapes| - |items|
  {
    hide Img, FieldAt, Fits, ItemMatches, ReadItem, ShortName;
    var n := |items|;
    if n < |shapes| {
      hide Labels, GoodName, Escape;
      assert FieldAt(Img(content), StartOf(12 + start, fends, n), r.rdata[n], fends[n]);
      FieldForward(Img(content), 12 + pos, r.rdata[n], fends[n]);
      var end := fends[n] - 12;
      assert Fits(r.rdata[n], shapes[n]);
      ItemReads(content, pos, r.rdata[n], shapes[n], start, clen, end);
      var i := ReadItem(content, pos, shapes[n], start, clen);
      assert StartOf(12 + start, fends, n + 1) == 12 + end;
      ItemsRead(content, end, r, shapes, fends, items + [i.value], start, clen);
    }
  }

  lemma FieldForward(img: Image, pos: nat, f: Field, end: nat)
    requires FieldAt(img, pos, f, end)
    ensures pos <= end
  {
  }

  lemma HeaderReads(r: Record, clen: u16)
    ensures HeaderOf(RecordHeader(r, clen)) == Header(r.qtype, r.qclass, r.ttl, clen)
  {
    var h := RecordHeader(r, clen);
    Get16Inverts(r.qtype);
    Get16Inverts(r.qclass);
    Get16Inverts(clen);
    Get32Inverts(r.ttl);
    hide U16, U32, Get16, Get32;
    assert h[0] == U16(r.qtype)[0] && h[1] == U16(r.qtype)[1];
    assert h[2] == U16(r.qclass)[0] && h[3] == U16(r.qclass)[1];
    assert h[8] == U16(clen)[0] && h[9] == U16(clen)[1];
    assert h[4] == U32(r.ttl)[0] && h[5] == U32(r.ttl)[1] && h[6] == U32(r.ttl)[2] && h[7] == U32(r.ttl)[3];
  }

  /** The type map can read this record: the registered shape, or one blob for an unknown type. */
  predicate Readable(r: Record, types: TypeMap)
  {
    && ShortNames(r)
    && var key := (if r.qtype == OPT then 1 else r.qclass, r.qtype);
    if key in types then Conforms(r, types[key]) else |r.rdata| == 1 && r.rdata[0].Blob?
  }

  lemma ReadableConforms(content: seq<byte>, r: Record, types: TypeMap, start: nat, clen: u16, fends: seq<nat>)
    requires Readable(r, types) && FieldsAt(Img(content), 12 + start, r.rdata, fends)
    requires StartOf(12 + start, fends, |fends|) == 12 + start + clen
    ensures Conforms(r, ShapesOf(types, r.qtype, r.qclass, clen)) && ShortNames(r)
  {
    hide Img;
    var key := (if r.qtype == OPT then 1 else r.qclass, r.qtype);
    if key !in types {
      assert FieldAt(Img(content), StartOf(12 + start, fends, 0), r.rdata[0], fends[0]);
    }
  }

  lemma SlotFacts(img: Image, at: Slot, r: Record) returns (e: nat, clen: u16)
    requires RecordAt(img, at, r)
    ensures e == NameEnd(img, at.start) && at.start < e && at.end == e + 10 + clen
    ensures NamedAt(img, at.start, Labels(r.name), Budget(Labels(r.name)))
    ensures BytesAt(img, e, RecordHeader(r, clen))
    ensures FieldsAt(img, e + 10, r.rdata, at.fends)
    ensures StartOf(e + 10, at.fends, |at.fends|) == at.end
  {
    hide NamedAt, Labels, FieldsAt, BytesAt, RecordHeader, GoodRecord, Budget, StartOf, Decode;
    e, clen := NameEnd(img, at.start), at.end - NameEnd(img, at.start) - 10;
  }

  lemma HeaderTaken(content: seq<byte>, p: nat, r: Record, clen: u16)
    requires BytesAt(Img(content), 12 + p, RecordHeader(r, clen))
    ensures Take(content, p, 10) == Got(RecordHeader(r, clen), p + 10)
  {
    hide RecordHeader, Img, BytesAt;
    BlobReads(content, p, RecordHeader(r, clen));
  }

  /** Name, header and items put together. */
  lemma Assemble(content: seq<byte>, pos: nat, r: Record, types: TypeMap, p: nat, clen: u16)
    requires ReadText(content, pos).Got? && ReadText(content, pos).pos == p
    requires ReadsAs(ReadText(content, pos).value, r.name)
    requires Take(content, p, 10) == Got(RecordHeader(r, clen), p + 10)
    requires var got := ReadItems(content, p + 10, ShapesOf(types, r.qtype, r.qclass, clen), [], p + 10, clen);
             && got.Got? && got.pos == p + 10 + clen && |got.value| == |r.rdata|
             && forall i :: 0 <= i < |got.value| ==> ItemMatches(got.value[i], r.rdata[i])
    ensures var got := ReadRecord(content, pos, types);
            got.Got? && got.pos == p + 10 + clen && RecordMatches(got.value, r) && got.value.clen == clen
  {
    HeaderReads(r, clen);
    hide ReadText, ReadsAs, ReadItems, ShapesOf, HeaderOf, RecordHeader, ItemMatches, Take;
  }

  lemma ReadableShort(r: Record, types: TypeMap)
    requires Readable(r, types)
    ensures ShortName(r.name)
  {
  }

  /** A record at a slot is read back, and the reader ends where the slot ends. */
  lemma RecordReads(content: seq<byte>, at: Slot, r: Record, types: TypeMap)
    requires at.start >= 12 && RecordAt(Img(content), at, r) && Readable(r, types)
    ensures var got := ReadRecord(content, at.start - 12, types);
            got.Got? && got.pos == at.end - 12 && RecordMatches(got.value, r)
            && got.value.clen == at.end - NameEnd(Img(content), at.start) - 10
  {
    var img, pos := Img(content), at.start - 12;
    hide *;
    var e, clen := SlotFacts(img, at, r);
    var p := e - 12;
    HeaderTaken(content, p, r, clen);
    ReadableShort(r, types);
    NameReads(content, pos, r.name);
    ReadableConforms(content, r, types, p + 10, clen, at.fends);
    ItemsReadAll(content, r, ShapesOf(types, r.qtype, r.qclass, clen), at.fends, p + 10, clen);
    Assemble(content, pos, r, types, p, clen);
  }

  lemma ItemsReadAll(content: seq<byte>, r: Record, shapes: seq<Shape>, fends: seq<nat>, start: nat, clen: u16)
    requires Conforms(r, shapes) && ShortNames(r)
    requires FieldsAt(Img(content), 12 + start, r.rdata, fends)
    requires StartOf(12 + start, fends, |fends|) == 12 + start + clen
    ensures var got := ReadItems(content, start, shapes, [], start, clen);
            && got.Got? && got.pos == start + clen && |got.value| == |r.rdata|
            && forall i :: 0 <= i < |got.value| ==> ItemMatches(got.value[i], r.rdata[i])
  {
    hide FieldsAt, Conforms, ShortNames, ReadItems, ItemMatches, Img;
    ItemsRead(content, start, r, shapes, fends, [], start, clen);
  }

  /** The reader object: a cursor over the content. Every method either advances the cursor as the
      reading functions say, or reports what PacketReader throws. */
  class PacketReader {
    const content: seq<byte>
    var pos: nat
    var startRecordPos: nat
    var recordLen: u16

    constructor (content: seq<byte>)
      ensures this.content == content && pos == 0
    {
      this.content := content;
      pos, startRecordPos, recordLen := 0, 0, 0;
    }

    method GetLabel() returns (r: Read<seq<byte>>)
      requires |content| <= 65523
      modifies this`pos
      ensures r == ReadText(content, old(pos)) && (r.Got? ==> pos == r.pos)
    {
      hide NameText, After;
      var t, p := GetLabelFromContent(content, pos, [], 0);
      match t
      case Ok(text) =>
        pos := p;
        r := Got(text, p);
      case Err(f) =>
        r := Fail(f);
    }

    /** Reads n bytes one after the other. */
    method CopyRecord(n: nat) returns (r: Read<seq<byte>>)
      modifies this`pos
      ensures r == Take(content, old(pos), n) && (r.Got? ==> pos == r.pos)
    {
      var dest: seq<byte> := [];
      var start := pos;
      while |dest| < n
        invariant |dest| <= n && pos == start + |dest|
        invariant |dest| > 0 ==> pos <= |content| && dest == content[start..pos]
      {
        if pos >= |content| {
          return Fail(Beyond);
        }
        dest := dest + [content[pos]];
        pos := pos + 1;
      }
      r := Got(dest, pos);
    }

    method GetDnsRecordHeader() returns (r: Read<Header>)
      modifies this
      ensures match Take(content, old(pos), 10)
              case Got(h, p) => r == Got(HeaderOf(h), p) && pos == p && startRecordPos == p && recordLen == r.value.clen
              case Fail(f) => r == Fail(f)
    {
      hide HeaderOf;
      var h := CopyRecord(10);
      match h
      case Got(bytes, p) =>
        r := Got(HeaderOf(bytes), p);
        startRecordPos, recordLen := pos, r.value.clen;
      case Fail(f) =>
        r := Fail(f);
    }

    method XfrBlob() returns (r: Read<seq<byte>>)
      modifies this`pos
      ensures r == ReadRest(content, old(pos), startRecordPos, recordLen) && (r.Got? ==> pos == r.pos)
    {
      var end := startRecordPos + recordLen;
      var blob: seq<byte> := [];
      if recordLen != 0 && pos != end {
        if pos >= |content| || end > |content| {
          return Fail(Beyond);
        }
        if pos > end {
          return Fail(Inverted);
        }
        blob := content[pos..end];
      }
      pos := end;
      r := Got(blob, end);
    }

    method XfrCounted(w: nat) returns (r: Read<seq<byte>>)
      requires w == 1 || w == 2
      modifies this`pos
      ensures r == ReadCounted(content, old(pos), w) && (r.Got? ==> pos == r.pos)
    {
      var start := pos;
      var head := CopyRecord(w);
      match head
      case Fail(f) => return Fail(f);
      case Got(h, _) =>
        var n: int := if w == 1 then h[0] else Get16(h[0], h[1]);
        assert h == content[start..start + w];
        assert h[0] == content[start] && (w == 2 ==> h[1] == content[start + 1]);
        if pos + n > |content| {
          return Fail(Beyond);
        }
        pos := pos + n;
        r := Got(content[start..pos], pos);
    }

    method XfrItem(shape: Shape) returns (r: Read<Item>)
      requires |content| <= 65523
      modifies this`pos
      ensures r == ReadItem(content, old(pos), shape, startRecordPos, recordLen) && (r.Got? ==> pos == r.pos)
    {
      hide Take, ReadCounted, ReadRest, ReadText;
      if shape.DomainName? {
        var t := GetLabel();
        return match t case Got(text, p) => Got(Text(text), p) case Fail(f) => Fail(f);
      }
      var data: Read<seq<byte>>;
      match shape {
        case Fixed(n) => data := CopyRecord(n);
        case Counted8 => data := XfrCounted(1);
        case Counted16 => data := XfrCounted(2);
        case Rest => data := XfrBlob();
      }
      r := AsRaw(data);
    }

    /** mastermake: the items of a record, in the order of its shape. */
    method MasterMake(types: TypeMap, h: Header) returns (r: Read<seq<Item>>)
      requires |content| <= 65523 && h.clen == recordLen
      modifies this`pos
      ensures r == ReadItems(content, old(pos), ShapesOf(types, h.qtype, h.qclass, h.clen), [],
                             startRecordPos, recordLen)
      ensures r.Got? ==> pos == r.pos
    {
      hide ReadItem;
      var shapes := ShapesOf(types, h.qtype, h.qclass, h.clen);
      var items: seq<Item> := [];
      while |items| < |shapes|
        invariant |items| <= |shapes|
        invariant ReadItems(content, pos, shapes, items, startRecordPos, recordLen)
               == ReadItems(content, old(pos), shapes, [], startRecordPos, recordLen)
      {
        var i := XfrItem(shapes[|items|]);
        if i.Fail? {
          return Fail(i.failure);
        }
        items := items + [i.value];
      }
      r := Got(items, pos);
    }

    /** One turn of the record loop of MOADNSParser::init. */
    method NextRecord(types: TypeMap) returns (r: Read<ParsedRecord>)
      requires |content| <= 65523
      modifies this
      ensures r == ReadRecord(content, old(pos), types) && (r.Got? ==> pos == r.pos)
    {
      hide ReadText, Take, HeaderOf, ReadItems, ShapesOf;
      var name := GetLabel();
      if name.Fail? {
        return Fail(name.failure);
      }
      var h := GetDnsRecordHeader();
      if h.Fail? {
        return Fail(h.failure);
      }
      var items := MasterMake(types, h.value);
      if items.Fail? {
        return Fail(items.failure);
      }
      r := Got(ParsedRecord(name.value, h.value.qtype, h.value.qclass, h.value.ttl, h.value.clen, items.value), pos);
    }
  }
}
