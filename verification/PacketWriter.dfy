/** DNSPacketWriter: a packet is written record by record; the header of the record being
    written is filled in when it is committed. */
module PacketWriter {
  import opened Bytes
  import opened Names
  import opened Wire
  import opened NameWriter
  import opened Compression

  /** The image of finished content: its 12 header bytes are never part of a name. */
  function Base(content: seq<byte>): (img: Image)
    requires |content| >= 12
    ensures |img| == |content|
    ensures forall i :: 12 <= i < |img| ==> img[i] == content[i]
    ensures forall i :: 0 <= i < 12 ==> img[i] == -1
  {
    Holes(12) + content[12..]
  }

  /** The image while a record is open: its header is still to come. */
  function Opened(content: seq<byte>, record: seq<byte>): (img: Image)
    requires |content| >= 12
    ensures |img| == |content| + 10 + |record|
  {
    Base(content) + Holes(10) + record
  }

  datatype Question = Question(name: seq<byte>, qtype: u16, qclass: u16)

  /** The question section: one question right after the header. */
  ghost predicate QuestionAt(img: Image, q: Question, end: nat)
  {
    && GoodName(q.name)
    && Decode(img, 12, 0) == Name(Labels(q.name))
    && end >= 16 && NameEnd(img, 12) + 4 == end
    && BytesAt(img, end - 4, U16(q.qtype) + U16(q.qclass))
  }

  lemma QuestionMono(a: Image, b: Image, q: Question, end: nat)
    requires Agree(a, b) && QuestionAt(a, q, end)
    ensures QuestionAt(b, q, end)
  {
    DecodeMono(a, b, 12, 0);
    BytesMono(a, b, end - 4, U16(q.qtype) + U16(q.qclass));
  }

  function Count(rs: seq<Record>, p: Place): (n: nat)
    ensures n <= |rs|
  {
    if rs == [] then 0 else Count(rs[..|rs| - 1], p) + (if rs[|rs| - 1].place == p then 1 else 0)
  }

  /** Every record is in one section. */
  lemma {:induction false} SectionsSum(rs: seq<Record>)
    ensures Count(rs, Answer) + Count(rs, Authority) + Count(rs, Additional) == |rs|
  {
    if rs != [] {
      SectionsSum(rs[..|rs| - 1]);
    }
  }

  /** The big-endian 16-bit field at k is v. */
  predicate Is16(content: seq<byte>, k: nat, v: u16)
    requires k + 2 <= |content|
  {
    content[k] == v / 256 && content[k + 1] == v % 256
  }

  /** The section counts in the header. */
  ghost predicate CountsAre(content: seq<byte>, rs: seq<Record>)
  {
    && |content| >= 12 && |rs| < 0x10000
    && Is16(content, 4, 1)
    && Is16(content, 6, Count(rs, Answer))
    && Is16(content, 8, Count(rs, Authority))
    && Is16(content, 10, Count(rs, Additional))
  }

  /** Finished content: one question and the records, nothing else. */
  ghost predicate Complete(content: seq<byte>, q: Question, qend: nat, rs: seq<Record>, lay: seq<Slot>)
  {
    && CountsAre(content, rs)
    && QuestionAt(Base(content), q, qend)
    && RecordsAt(Base(content), qend, rs, lay)
    && LastEnd(qend, lay, |lay|) == |content|
    && 12 + 11 * |rs| <= |content|
  }

  /** The names of a packet keep off its record headers: question and records stand in a frame of it in
      which those are holes. */
  ghost predicate Firm(frame: Image, content: seq<byte>, q: Question, qend: nat, rs: seq<Record>, lay: seq<Slot>)
  {
    && |content| >= 12 && |frame| == |content| && Agree(frame, Base(content))
    && QuestionAt(frame, q, qend) && Stands(frame, rs, lay)
  }

  /** A record being written: its name ends at clen, ten bytes of header are still to come,
      and the data written so far ends the image. */
  ghost predicate PendingAt(img: Image, clen: nat, start: nat, r: Record, fends: seq<nat>)
  {
    && GoodRecord(r)
    && NamedAt(img, start, Labels(r.name), Budget(Labels(r.name)))
    && NameEnd(img, start) == clen
    && FieldsAt(img, clen + 10, r.rdata, fends)
    && StartOf(clen + 10, fends, |fends|) == |img|
  }

  /** The record being written: its name stands at the end of content, its data in record. */
  ghost predicate Pending(content: seq<byte>, record: seq<byte>, start: nat, r: Record, fends: seq<nat>)
  {
    12 <= start < |content| && PendingAt(Opened(content, record), |content|, start, r, fends)
  }

  /** The image while a record is open behind a framed packet: the headers of all records are holes. */
  function Framed(frame: Image, content: seq<byte>, record: seq<byte>): (img: Image)
    requires |frame| <= |content|
    ensures |img| == |content| + 10 + |record|
  {
    frame + content[|frame|..] + Holes(10) + record
  }

  /** The record being written stands in the frame. */
  ghost predicate PendingIn(frame: Image, content: seq<byte>, record: seq<byte>, start: nat, r: Record, fends: seq<nat>)
  {
    12 <= start < |content| && |frame| == start && PendingAt(Framed(frame, content, record), |content|, start, r, fends)
  }

  lemma FramedOpened(frame: Image, content: seq<byte>, record: seq<byte>)
    requires 12 <= |frame| <= |content| && Agree(frame, Base(content[..|frame|]))
    ensures Agree(Framed(frame, content, record), Opened(content, record))
  {
    var a, b := Framed(frame, content, record), Opened(content, record);
    forall i | 0 <= i < |a|
      ensures a[i] == -1 || a[i] == b[i]
    {
      if 12 <= i < |frame| {
        assert a[i] == frame[i] && Base(content[..|frame|])[i] == content[..|frame|][i] == content[i] == b[i];
      } else if i < 12 {
        assert a[i] == frame[i] && Base(content[..|frame|])[i] == -1;
      }
    }
  }

  lemma PendingMono(a: Image, b: Image, clen: nat, start: nat, r: Record, fends: seq<nat>)
    requires PendingAt(a, clen, start, r, fends) && Agree(a, b) && |a| == |b|
    ensures PendingAt(b, clen, start, r, fends)
  {
    hide Decode, NameEnd, Labels, FieldsAt, GoodRecord, Agree;
    DecodeMono(a, b, start, Budget(Labels(r.name)));
    FieldsMono(a, b, clen + 10, r.rdata, fends);
  }

  /** What stands in the frame stands in the packet. */
  lemma PendingOut(frame: Image, content: seq<byte>, record: seq<byte>, start: nat, r: Record, fends: seq<nat>)
    requires PendingIn(frame, content, record, start, r, fends) && Agree(frame, Base(content[..start]))
    ensures Pending(content, record, start, r, fends)
  {
    hide PendingAt, Framed, Opened, Base, Agree;
    FramedOpened(frame, content, record);
    PendingMono(Framed(frame, content, record), Opened(content, record), |content|, start, r, fends);
  }

  function PlaceOffset(p: Place): (k: nat)
    ensures 6 <= k <= 10
  {
    match p
    case Answer => 6
    case Authority => 8
    case Additional => 10
  }

  function Next16(hi: byte, lo: byte): (n: u16)
  {
    var v: int := Get16(hi, lo);
    (v + 1) % 0x10000
  }

  lemma Next16Is(hi: byte, lo: byte, n: u16)
    requires n < 0xffff && hi == n / 256 && lo == n % 256
    ensures Next16(hi, lo) == n + 1
  {
    var h: int := hi;
    assert 256 * h + lo == n;
  }

  /** One more record in its section: the 16-bit count wraps. */
  function Bump(content: seq<byte>, p: Place): (r: seq<byte>)
    requires |content| >= 12
    ensures |r| == |content|
  {
    var k := PlaceOffset(p);
    var n := Next16(content[k], content[k + 1]);
    content[k := n / 256][k + 1 := n % 256]
  }

  function Committed(content: seq<byte>, record: seq<byte>, r: Record): (c: seq<byte>)
    requires |content| >= 12 && |record| < 0x10000
  {
    Bump(content + RecordHeader(r, |record|) + record, r.place)
  }

  lemma BumpBase(content: seq<byte>, p: Place)
    requires |content| >= 12
    ensures Base(Bump(content, p)) == Base(content)
  {
  }

  lemma BumpHead(content: seq<byte>, p: Place)
    requires |content| >= 12
    ensures Bump(content, p)[..6] == content[..6]
  {
  }

  lemma BumpField(content: seq<byte>, p: Place, n: u16)
    requires |content| >= 12 && n < 0xffff && Is16(content, PlaceOffset(p), n)
    ensures Is16(Bump(content, p), PlaceOffset(p), n + 1)
    ensures forall i :: 0 <= i < |content| && i != PlaceOffset(p) && i != PlaceOffset(p) + 1 ==>
              Bump(content, p)[i] == content[i]
  {
    hide Next16;
    var k := PlaceOffset(p);
    Next16Is(content[k], content[k + 1], n);
  }

  lemma CountSnoc(rs: seq<Record>, r: Record, p: Place)
    ensures Count(rs + [r], p) == Count(rs, p) + (if r.place == p then 1 else 0)
  {
    assert (rs + [r])[..|rs|] == rs;
  }

  /** The count of section p when a record of section q is added. */
  lemma BumpPlace(content: seq<byte>, q: Place, p: Place, n: u16, m: u16)
    requires |content| >= 12 && m < 0xffff
    requires Is16(content, PlaceOffset(p), n) && Is16(content, PlaceOffset(q), m)
    ensures p == q ==> Is16(Bump(content, q), PlaceOffset(p), m + 1)
    ensures p != q ==> Is16(Bump(content, q), PlaceOffset(p), n)
  {
    BumpField(content, q, m);
    hide Bump;
  }

  lemma BumpPlace4(content: seq<byte>, q: Place, m: u16)
    requires |content| >= 12 && m < 0xffff && Is16(content, 4, 1) && Is16(content, PlaceOffset(q), m)
    ensures Is16(Bump(content, q), 4, 1)
  {
    BumpField(content, q, m);
    hide Bump;
  }

  lemma BumpCounts(content: seq<byte>, rs: seq<Record>, r: Record)
    requires CountsAre(content, rs) && |rs| < 0xffff
    ensures CountsAre(Bump(content, r.place), rs + [r])
  {
    var b := Bump(content, r.place);
    forall p: Place
      ensures Is16(b, PlaceOffset(p), Count(rs + [r], p))
    {
      CountSnoc(rs, r, p);
      BumpPlace(content, r.place, p, Count(rs, p), Count(rs, r.place));
    }
    BumpPlace4(content, r.place, Count(rs, r.place));
    hide Bump, Count, Is16;
    assert Is16(b, PlaceOffset(Answer), Count(rs + [r], Answer));
    assert Is16(b, PlaceOffset(Authority), Count(rs + [r], Authority));
    assert Is16(b, PlaceOffset(Additional), Count(rs + [r], Additional));
  }

  lemma BaseGrows(content: seq<byte>, more: seq<byte>)
    requires |content| >= 12
    ensures Agree(Base(content), Base(content + more)) && Base(content + more) == Base(content) + more
  {
  }

  lemma FrameOpens(frame: Image, out: seq<byte>, content: seq<byte>)
    requires |frame| == |content|
    ensures Agree(frame + out, Framed(frame, content + out, []))
    ensures |Framed(frame, content + out, [])| == |frame + out| + 10
  {
    assert (content + out)[|frame|..] == out;
  }

  lemma FramedGrows(frame: Image, content: seq<byte>, record: seq<byte>, more: seq<byte>)
    requires |frame| <= |content|
    ensures Agree(Framed(frame, content, record), Framed(frame, content, record + more))
    ensures Framed(frame, content, record + more) == Framed(frame, content, record) + more
  {
  }

  lemma FrameGrows(frame: Image, content: seq<byte>, out: seq<byte>)
    requires |content| >= 12 && |frame| == |content| && Agree(frame, Base(content))
    ensures Agree(frame + out, Base(content + out)) && Agree(frame, frame + out)
  {
    BaseGrows(content, out);
  }

  lemma OpenedCloses(content: seq<byte>, header: seq<byte>, record: seq<byte>)
    requires |content| >= 12 && |header| == 10
    ensures Agree(Opened(content, record), Base(content + header + record))
    ensures BytesAt(Base(content + header + record), |content|, header)
  {
  }

  /** A record may be named as the question by a pointer to offset 12. */
  lemma SeeQuestion(img: Image, q: Question, qend: nat, start: nat, name: seq<byte>, low: bool)
    requires QuestionAt(img, q, qend) && SameText(q.name, name) && (low ==> LowerLabels(Labels(q.name)))
    requires start + 1 < |img| && img[start] == 0xc0 && img[start + 1] == 12
    ensures NamedLow(img, start, Labels(name), Budget(Labels(name)), low)
    ensures NameEnd(img, start) == start + 2
  {
    SameTextSameNames(q.name, name);
    assert Decode(img, start, 1) == Decode(img, 12, 0);
    DecodeMore(img, start, 1, Budget(Labels(name)));
  }

  /** At most the uncompressed size of a record name; a pointer to the question takes two bytes. */
  function NameSize(name: seq<byte>): (n: nat)
    requires GoodLabels(Labels(name))
  {
    if name == [DOT] || name == [] then 2 else |Encoded(Labels(name), 0)|
  }

  lemma NameSizeBounds(name: seq<byte>)
    requires GoodName(name)
    ensures GoodLabels(Labels(name))
    ensures NameSize(name) >= 2 && NameSize(name) >= |Encoded(Labels(name), 0)|
  {
    if name != [DOT] && name != [] {
      PartsSome(name, 0, 0);
      EncodedLong(Tokens(name), 0);
    }
  }

  /** The record header fields of the record being written. */
  predicate Blank(r: Record)
  {
    GoodName(r.name) && r.rdata == []
  }

  lemma PendingName0(a: Image, b: Image, start: nat, r: Record, hops: nat)
    requires Blank(r) && hops <= Budget(Labels(r.name)) && Agree(a, b) && |b| == |a| + 10
    requires NamedAt(a, start, Labels(r.name), hops) && NameEnd(a, start) == |a|
    ensures PendingAt(b, |a|, start, r, [])
  {
    hide Decode, NameEnd, Labels, Budget, Agree;
    DecodeMore(a, start, hops, Budget(Labels(r.name)));
    DecodeMono(a, b, start, Budget(Labels(r.name)));
  }

  lemma OpenNamed(frame: Image, content: seq<byte>, out: seq<byte>, r: Record, hops: nat)
    requires 12 <= |frame| == |content| && out != [] && Blank(r) && hops <= Budget(Labels(r.name))
    requires NamedAt(frame + out, |frame|, Labels(r.name), hops) && NameEnd(frame + out, |frame|) == |frame + out|
    ensures PendingIn(frame, content + out, [], |content|, r, [])
  {
    FrameOpens(frame, out, content);
    hide NameEnd, Labels, Budget, Framed, PendingAt, Agree, NamedAt, Blank;
    PendingName0(frame + out, Framed(frame, content + out, []), |content|, r, hops);
  }

  lemma WrittenFacts(img: Image, text: seq<byte>, out: seq<byte>, lmap: seq<Entry>, low: bool)
    requires Written(img, text, out, lmap, low)
    ensures out != [] && MapOk(img + out, lmap, low)
    ensures NamedLow(img + out, |img|, Labels(text), |Labels(text)|, low)
    ensures NameEnd(img + out, |img|) == |img| + |out|
  {
  }

  lemma NamedMore(img: Image, pos: nat, ls: seq<seq<byte>>, hops: nat, more: nat, low: bool)
    requires NamedLow(img, pos, ls, hops, low) && hops <= more
    ensures NamedLow(img, pos, ls, more, low)
  {
    DecodeMore(img, pos, hops, more);
  }

  lemma LowMono(a: Image, b: Image, pos: nat, ls: seq<seq<byte>>, hops: nat, low: bool)
    requires Agree(a, b) && NamedLow(a, pos, ls, hops, low)
    ensures NamedLow(b, pos, ls, hops, low) && NameEnd(b, pos) == NameEnd(a, pos) >= 0
  {
    DecodeMono(a, b, pos, hops);
    DecodeEnd(a, pos, hops);
  }

  /** A name put behind a framed packet is the owner name of the next record. */
  lemma OpenNext(frame: Image, content: seq<byte>, out: seq<byte>, lmap: seq<Entry>, r: Record, hops: nat, low: bool)
    requires 12 <= |frame| == |content| && Agree(frame, Base(content)) && out != [] && Blank(r)
    requires hops <= Budget(Labels(r.name))
    requires NamedLow(frame + out, |frame|, Labels(r.name), hops, low) && NameEnd(frame + out, |frame|) == |frame + out|
    requires MapOk(frame + out, lmap, low)
    ensures PendingIn(frame, content + out, [], |content|, r, []) && MapOk(Framed(frame, content + out, []), lmap, low)
    ensures NamedLow(Base(content + out), |content|, Labels(r.name), Budget(Labels(r.name)), low)
  {
    hide Base, Framed, NameEnd, MapOk, PendingIn, Blank, Labels, Agree, Decode, LowerLabels;
    OpenNamed(frame, content, out, r, hops);
    FrameOpens(frame, out, content);
    MapMono(frame + out, Framed(frame, content + out, []), lmap, low);
    FrameGrows(frame, content, out);
    LowMono(frame + out, Base(content + out), |content|, Labels(r.name), hops, low);
    NamedMore(Base(content + out), |content|, Labels(r.name), hops, Budget(Labels(r.name)), low);
  }

  lemma OpenWritten(frame: Image, content: seq<byte>, out: seq<byte>, lmap: seq<Entry>, r: Record, low: bool)
    requires 12 <= |frame| == |content| && Agree(frame, Base(content)) && Blank(r)
    requires Written(frame, r.name, out, lmap, low)
    ensures PendingIn(frame, content + out, [], |content|, r, []) && MapOk(Framed(frame, content + out, []), lmap, low)
    ensures NamedLow(Base(content + out), |content|, Labels(r.name), Budget(Labels(r.name)), low)
  {
    WrittenFacts(frame, r.name, out, lmap, low);
    hide Base, Framed, NameEnd, MapOk, PendingIn, NamedLow, Written, Blank, Labels, Agree;
    OpenNext(frame, content, out, lmap, r, |Labels(r.name)|, low);
  }

  lemma OpenSeeQuestion(frame: Image, content: seq<byte>, lmap: seq<Entry>, q: Question, qend: nat, r: Record,
                        low: bool)
    requires 12 <= |frame| == |content| && Agree(frame, Base(content)) && Blank(r) && SameText(q.name, r.name)
    requires QuestionAt(frame, q, qend) && MapOk(frame, lmap, low) && (low ==> LowerLabels(Labels(q.name)))
    ensures PendingIn(frame, content + [0xc0, 12], [], |content|, r, [])
    ensures MapOk(Framed(frame, content + [0xc0, 12], []), lmap, low)
    ensures NamedLow(Base(content + [0xc0, 12]), |content|, Labels(r.name), Budget(Labels(r.name)), low)
  {
    var out: seq<byte> := [0xc0, 12];
    FrameGrows(frame, content, out);
    QuestionMono(frame, frame + out, q, qend);
    assert (frame + out)[|frame|] == 0xc0 && (frame + out)[|frame| + 1] == 12;
    hide Base, Framed, NameEnd, MapOk, PendingIn, SameText, QuestionAt, NamedLow, Blank, Labels, Agree;
    SeeQuestion(frame + out, q, qend, |frame|, r.name, low);
    MapMono(frame, frame + out, lmap, low);
    OpenNext(frame, content, out, lmap, r, Budget(Labels(r.name)), low);
  }

  lemma GoodAppend(r: Record, f: Field)
    requires GoodRecord(r) && GoodField(f)
    ensures GoodRecord(r.(rdata := r.rdata + [f]))
  {
  }

  lemma PendingGrows(a: Image, b: Image, clen: nat, start: nat, r: Record, fends: seq<nat>, f: Field)
    requires PendingAt(a, clen, start, r, fends) && GoodField(f)
    requires Agree(a, b) && FieldAt(b, |a|, f, |b|)
    ensures PendingAt(b, clen, start, r.(rdata := r.rdata + [f]), fends + [|b|])
  {
    hide Decode, NameEnd, Labels, FieldAt, FieldsAt, GoodField, GoodRecord, Agree;
    GoodAppend(r, f);
    DecodeMono(a, b, start, Budget(Labels(r.name)));
    FieldsMono(a, b, clen + 10, r.rdata, fends);
    FieldsAppend(b, clen + 10, r.rdata, fends, f, |b|);
  }

  /** A field appended to the open record. */
  lemma PendingField(frame: Image, content: seq<byte>, record: seq<byte>, start: nat, r: Record, fends: seq<nat>,
                     record': seq<byte>, f: Field, r': Record)
    requires PendingIn(frame, content, record, start, r, fends) && GoodField(f)
    requires r' == r.(rdata := r.rdata + [f])
    requires var a, b := Framed(frame, content, record), Framed(frame, content, record');
             Agree(a, b) && FieldAt(b, |a|, f, |b|)
    ensures PendingIn(frame, content, record', start, r', fends + [|Framed(frame, content, record')|])
  {
    var a, b := Framed(frame, content, record), Framed(frame, content, record');
    PendingLong(frame, content, record, start, r, fends);
    hide *;
    PendingGrows(a, b, |content|, start, r, fends, f);
    PendingFold(frame, content, record', start, r', fends + [|b|]);
  }

  lemma PendingFold(frame: Image, content: seq<byte>, record: seq<byte>, start: nat, r: Record, fends: seq<nat>)
    requires 12 <= start < |content| && |frame| == start
    requires PendingAt(Framed(frame, content, record), |content|, start, r, fends)
    ensures PendingIn(frame, content, record, start, r, fends)
  {
  }

  lemma PendingBlob(frame: Image, content: seq<byte>, record: seq<byte>, start: nat, r: Record, fends: seq<nat>,
                    lmap: seq<Entry>, data: seq<byte>, low: bool)
    requires PendingIn(frame, content, record, start, r, fends) && MapOk(Framed(frame, content, record), lmap, low)
    ensures PendingIn(frame, content, record + data, start, r.(rdata := r.rdata + [Blob(data)]),
                      fends + [|content| + 10 + |record + data|])
    ensures MapOk(Framed(frame, content, record + data), lmap, low)
  {
    hide *;
    PendingLong(frame, content, record, start, r, fends);
    FramedGrows(frame, content, record, data);
    FramedData(frame, content, record, data);
    PendingField(frame, content, record, start, r, fends, record + data, Blob(data),
                 r.(rdata := r.rdata + [Blob(data)]));
    MapMono(Framed(frame, content, record), Framed(frame, content, record + data), lmap, low);
  }

  lemma FramedData(frame: Image, content: seq<byte>, record: seq<byte>, data: seq<byte>)
    requires |frame| <= |content|
    ensures var img := Framed(frame, content, record + data);
            FieldAt(img, |content| + 10 + |record|, Blob(data), |img|) && GoodField(Blob(data))
  {
  }

  lemma PendingName(frame: Image, content: seq<byte>, record: seq<byte>, start: nat, r: Record, fends: seq<nat>,
                    lmap: seq<Entry>, name: seq<byte>, compress: bool, out: seq<byte>, low: bool)
    requires PendingIn(frame, content, record, start, r, fends) && GoodName(name)
    requires |frame| <= |content| && Written(Framed(frame, content, record), name, out, lmap, low)
    ensures PendingIn(frame, content, record + out, start, r.(rdata := r.rdata + [Domain(name, compress)]),
                      fends + [|content| + 10 + |record + out|])
    ensures MapOk(Framed(frame, content, record + out), lmap, low)
  {
    hide PendingIn, MapOk, Framed, Decode, NameEnd, Labels;
    PendingLong(frame, content, record, start, r, fends);
    FramedGrows(frame, content, record, out);
    var img, at := Framed(frame, content, record + out), |content| + 10 + |record|;
    DecodeMore(img, at, |Labels(name)|, Budget(Labels(name)));
    var f := Domain(name, compress);
    PendingField(frame, content, record, start, r, fends, record + out, f, r.(rdata := r.rdata + [f]));
    assert |img| == |content| + 10 + |record + out|;
  }

  lemma PendingLong(frame: Image, content: seq<byte>, record: seq<byte>, start: nat, r: Record, fends: seq<nat>)
    requires PendingIn(frame, content, record, start, r, fends)
    ensures 12 <= |frame| == start < |content| && GoodRecord(r)
    ensures PendingAt(Framed(frame, content, record), |content|, start, r, fends)
  {
  }

  lemma PendingDone(a: Image, b: Image, clen: nat, start: nat, r: Record, fends: seq<nat>)
    requires PendingAt(a, clen, start, r, fends) && Agree(a, b) && |a| == |b|
    requires clen + 10 <= |b| && |b| - clen - 10 < 0x10000
    requires BytesAt(b, clen, RecordHeader(r, |b| - clen - 10))
    ensures RecordAt(b, Slot(start, |b|, fends), r)
  {
    hide Decode, NameEnd, Labels, FieldsAt, GoodRecord, Agree, RecordHeader, BytesAt, Budget;
    DecodeMono(a, b, start, Budget(Labels(r.name)));
    FieldsMono(a, b, clen + 10, r.rdata, fends);
  }

  lemma PendingCloses(frame: Image, content: seq<byte>, record: seq<byte>, start: nat, r: Record, fends: seq<nat>)
    requires PendingIn(frame, content, record, start, r, fends) && |record| < 0x10000
    requires Agree(frame, Base(content[..start]))
    ensures var c := Committed(content, record, r);
            && RecordAt(Base(c), Slot(start, |c|, fends), r)
            && Agree(Framed(frame, content, record), Base(c))
  {
    var header := RecordHeader(r, |record|);
    var c := content + header + record;
    BumpBase(c, r.place);
    PendingLong(frame, content, record, start, r, fends);
    assert Committed(content, record, r) == Bump(c, r.place) && |Bump(c, r.place)| == |content| + 10 + |record|;
    hide *;
    OpenedCloses(content, header, record);
    FramedOpened(frame, content, record);
    AgreeTwice(Framed(frame, content, record), Opened(content, record), Base(c));
    PendingDone(Framed(frame, content, record), Base(c), |content|, start, r, fends);
  }

  lemma AgreeTwice(a: Image, b: Image, c: Image)
    requires Agree(a, b) && Agree(b, c)
    ensures Agree(a, c)
  {
  }

  /** The record closed stands in the frame: its header is a hole. */
  lemma PendingStands(frame: Image, content: seq<byte>, record: seq<byte>, start: nat, r: Record, fends: seq<nat>)
    requires PendingIn(frame, content, record, start, r, fends)
    ensures StandsAt(Framed(frame, content, record), Slot(start, |content| + 10 + |record|, fends), r)
  {
    hide NamedAt, FieldsAt, NameEnd, GoodRecord;
    var img := Framed(frame, content, record);
    forall i | |content| <= i < |content| + 10
      ensures img[i] == -1
    {
    }
    hide Framed;
  }

  lemma CountsPrefix(content: seq<byte>, start: nat, rs: seq<Record>)
    requires 12 <= start <= |content| && CountsAre(content[..start], rs)
    ensures forall more: seq<byte> :: CountsAre(content + more, rs)
  {
    hide Count;
    forall more: seq<byte>
      ensures CountsAre(content + more, rs)
    {
      assert forall i :: 0 <= i < 12 ==> (content + more)[i] == content[..start][i];
    }
  }

  lemma CommitBase(content: seq<byte>, record: seq<byte>, start: nat, r: Record)
    requires 12 <= start <= |content| && |record| < 0x10000
    ensures Agree(Base(content[..start]), Base(Committed(content, record, r)))
    ensures Agree(Opened(content, record), Base(Committed(content, record, r)))
    ensures |Committed(content, record, r)| == |content| + 10 + |record|
    ensures Committed(content, record, r)[..6] == content[..6]
  {
    hide Bump, RecordHeader;
    var header := RecordHeader(r, |record|);
    BumpBase(content + header + record, r.place);
    BumpHead(content + header + record, r.place);
    assert (content + header + record)[..6] == content[..6];
    OpenedCloses(content, header, record);
    assert forall i :: 12 <= i < start ==> (content + header + record)[i] == content[..start][i];
  }

  lemma CompleteParts(content: seq<byte>, q: Question, qend: nat, rs: seq<Record>, lay: seq<Slot>)
    requires Complete(content, q, qend, rs, lay)
    ensures |content| >= 12 && CountsAre(content, rs) && QuestionAt(Base(content), q, qend)
    ensures RecordsAt(Base(content), qend, rs, lay) && LastEnd(qend, lay, |lay|) == |content|
    ensures 12 + 11 * |rs| <= |content|
  {
    hide CountsAre, QuestionAt, RecordsAt;
    assert |content| >= 12 by { CountsLong(content, rs); }
  }

  lemma CountsLong(content: seq<byte>, rs: seq<Record>)
    requires CountsAre(content, rs)
    ensures |content| >= 12
  {
  }

  lemma CompleteFolds(content: seq<byte>, q: Question, qend: nat, rs: seq<Record>, lay: seq<Slot>)
    requires CountsAre(content, rs) && |content| >= 12 && QuestionAt(Base(content), q, qend)
    requires RecordsAt(Base(content), qend, rs, lay) && LastEnd(qend, lay, |lay|) == |content|
    requires 12 + 11 * |rs| <= |content|
    ensures Complete(content, q, qend, rs, lay)
  {
    hide CountsAre, QuestionAt, RecordsAt, Base;
  }

  lemma CommitFirm(frame: Image, content: seq<byte>, record: seq<byte>, start: nat, q: Question, qend: nat,
                   rs: seq<Record>, lay: seq<Slot>, r: Record, fends: seq<nat>)
    requires PendingIn(frame, content, record, start, r, fends) && |record| < 0x10000
    requires Firm(frame, content[..start], q, qend, rs, lay)
    ensures Firm(Framed(frame, content, record), Committed(content, record, r), q, qend, rs + [r],
                 lay + [Slot(start, |content| + 10 + |record|, fends)])
  {
    var framed := Framed(frame, content, record);
    FirmParts(frame, content[..start], q, qend, rs, lay);
    hide *;
    PendingLong(frame, content, record, start, r, fends);
    FramedFrame(frame, content, record);
    CommitBase(content, record, start, r);
    PendingCloses(frame, content, record, start, r, fends);
    QuestionMono(frame, framed, q, qend);
    PendingStands(frame, content, record, start, r, fends);
    StandsMore(frame, framed, rs, lay, r, Slot(start, |content| + 10 + |record|, fends));
    FirmFold(framed, Committed(content, record, r), q, qend, rs + [r],
             lay + [Slot(start, |content| + 10 + |record|, fends)]);
  }

  lemma FirmFold(frame: Image, content: seq<byte>, q: Question, qend: nat, rs: seq<Record>, lay: seq<Slot>)
    requires 12 <= |frame| == |content| && Agree(frame, Base(content))
    requires QuestionAt(frame, q, qend) && Stands(frame, rs, lay)
    ensures Firm(frame, content, q, qend, rs, lay)
  {
    hide Base, QuestionAt, Stands, Agree;
  }

  lemma FirmParts(frame: Image, content: seq<byte>, q: Question, qend: nat, rs: seq<Record>, lay: seq<Slot>)
    requires Firm(frame, content, q, qend, rs, lay)
    ensures 12 <= |frame| == |content| && Agree(frame, Base(content))
    ensures QuestionAt(frame, q, qend) && Stands(frame, rs, lay)
  {
    hide Base, QuestionAt, Stands, Agree;
  }

  /** The records before stay where they are, and the new one follows. */
  lemma CommitRecords(a: Image, b: Image, qend: nat, rs: seq<Record>, lay: seq<Slot>, r: Record, at: Slot)
    requires RecordsAt(a, qend, rs, lay) && Agree(a, b) && RecordAt(b, at, r) && at.start == LastEnd(qend, lay, |lay|)
    ensures RecordsAt(b, qend, rs + [r], lay + [at]) && LastEnd(qend, lay + [at], |lay + [at]|) == at.end
  {
    hide *;
    RecordsMono(a, b, qend, rs, lay);
    RecordsAppend(b, qend, rs, lay, r, at);
    LastEndSize(a, qend, rs, lay, at);
  }

  lemma PendingBounds(frame: Image, content: seq<byte>, record: seq<byte>, start: nat, r: Record, fends: seq<nat>)
    requires PendingIn(frame, content, record, start, r, fends)
    ensures 12 <= |frame| == start < |content|
  {
  }

  lemma CommitHead(content: seq<byte>, record: seq<byte>, r: Record)
    requires |content| >= 12 && |record| < 0x10000
    ensures Committed(content, record, r)[..6] == content[..6]
  {
    hide *;
    CommitBase(content, record, 12, r);
  }

  /** Committing turns the open record into the last finished one. */
  lemma CommitComplete(frame: Image, content: seq<byte>, record: seq<byte>, start: nat, q: Question, qend: nat,
                       rs: seq<Record>, lay: seq<Slot>, r: Record, fends: seq<nat>)
    requires PendingIn(frame, content, record, start, r, fends) && |content| + 10 + |record| < 0x10000
    requires Complete(content[..start], q, qend, rs, lay) && Firm(frame, content[..start], q, qend, rs, lay)
    ensures var c, more := Committed(content, record, r), lay + [Slot(start, |content| + 10 + |record|, fends)];
            && |c| == |content| + 10 + |record| && Complete(c, q, qend, rs + [r], more)
            && Firm(Framed(frame, content, record), c, q, qend, rs + [r], more)
  {
    hide *;
    PendingLong(frame, content, record, start, r, fends);
    CommitFirm(frame, content, record, start, q, qend, rs, lay, r, fends);
    CommitFinished(frame, content, record, start, q, qend, rs, lay, r, fends);
    CommitBase(content, record, start, r);
  }

  lemma CommitFinished(frame: Image, content: seq<byte>, record: seq<byte>, start: nat, q: Question, qend: nat,
                       rs: seq<Record>, lay: seq<Slot>, r: Record, fends: seq<nat>)
    requires PendingIn(frame, content, record, start, r, fends) && |content| + 10 + |record| < 0x10000
    requires Complete(content[..start], q, qend, rs, lay) && Firm(frame, content[..start], q, qend, rs, lay)
    ensures Complete(Committed(content, record, r), q, qend, rs + [r],
                     lay + [Slot(start, |content| + 10 + |record|, fends)])
  {
    hide *;
    PendingLong(frame, content, record, start, r, fends);
    FirmParts(frame, content[..start], q, qend, rs, lay);
    CompleteParts(content[..start], q, qend, rs, lay);
    CountsCommit(content, record, start, rs, r);
    CommitBase(content, record, start, r);
    PendingCloses(frame, content, record, start, r, fends);
    CompleteGrows(content[..start], Committed(content, record, r), q, qend, rs, lay, r,
                  Slot(start, |content| + 10 + |record|, fends));
  }

  lemma CompleteGrows(done: seq<byte>, c: seq<byte>, q: Question, qend: nat, rs: seq<Record>, lay: seq<Slot>, r: Record,
                      at: Slot)
    requires Complete(done, q, qend, rs, lay) && 12 <= |done| && |done| + 11 <= |c| && Agree(Base(done), Base(c))
    requires CountsAre(c, rs + [r]) && RecordAt(Base(c), at, r) && at.start == |done| && at.end == |c|
    ensures Complete(c, q, qend, rs + [r], lay + [at])
  {
    hide *;
    CompleteParts(done, q, qend, rs, lay);
    QuestionMono(Base(done), Base(c), q, qend);
    CommitRecords(Base(done), Base(c), qend, rs, lay, r, at);
    CompleteFolds(c, q, qend, rs + [r], lay + [at]);
  }

  lemma LastEndSize(img: Image, pos: nat, rs: seq<Record>, lay: seq<Slot>, at: Slot)
    requires RecordsAt(img, pos, rs, lay)
    ensures |lay| == |rs| && LastEnd(pos, lay + [at], |lay| + 1) == at.end
  {
  }

  lemma FramedFrame(frame: Image, content: seq<byte>, record: seq<byte>)
    requires |frame| <= |content|
    ensures frame <= Framed(frame, content, record) && Agree(frame, Framed(frame, content, record))
  {
  }

  lemma CountsCommit(content: seq<byte>, record: seq<byte>, start: nat, rs: seq<Record>, r: Record)
    requires 12 <= start <= |content| && CountsAre(content[..start], rs) && |record| < 0x10000 && |rs| < 0xffff
    ensures CountsAre(Committed(content, record, r), rs + [r])
  {
    hide Bump, RecordHeader, CountsAre;
    var header := RecordHeader(r, |record|);
    CountsPrefix(content, start, rs);
    assert content + header + record == content + (header + record);
    BumpCounts(content + (header + record), rs, r);
  }

  // ---------------------------------------------------------------- names written once

  /** The open record's names, like those before it, spell out nothing that is in reach. */
  ghost predicate LeanOpen(frame: Image, content: seq<byte>, record: seq<byte>, start: nat, r: Record, fends: seq<nat>,
                           rs: seq<Record>, lay: seq<Slot>, lmap: seq<Entry>)
  {
    && Shaped(rs, lay) && |fends| == |r.rdata| && |frame| <= |content|
    && Lean(Framed(frame, content, record), OpenMentions(frame, rs, lay, start, |content|, r, fends), lmap)
  }

  ghost predicate LeanClosed(frame: Image, rs: seq<Record>, lay: seq<Slot>, lmap: seq<Entry>)
  {
    Shaped(rs, lay) && Lean(frame, Mentions(frame, rs, lay, |rs|), lmap)
  }

  lemma LeanConcise(frame: Image, rs: seq<Record>, lay: seq<Slot>, lmap: seq<Entry>)
    requires LeanClosed(frame, rs, lay, lmap)
    ensures Concise(frame, rs, lay)
  {
    hide AllDecode, Thrifty, Covered, Shaped, Mentions;
  }

  /** With its record headers filled in a packet is as concise. */
  lemma ConcisePacket(frame: Image, content: seq<byte>, q: Question, qend: nat, rs: seq<Record>, lay: seq<Slot>)
    requires Firm(frame, content, q, qend, rs, lay) && Concise(frame, rs, lay)
    ensures |content| >= 12 && Concise(Base(content), rs, lay)
  {
    FirmParts(frame, content, q, qend, rs, lay);
    hide *;
    ConciseMono(frame, Base(content), rs, lay);
  }

  lemma LeanInit(c: seq<byte>, out: seq<byte>, lmap: seq<Entry>, ls: seq<seq<byte>>, full: nat, h: nat)
    requires |c| >= 12 && Agree(Holes(12) + out, Base(c)) && GoodLabels(ls)
    requires Abridged([], 12, ls, false, full, out, lmap) && NamedAt(Holes(12) + out, 12, ls, h)
    ensures LeanClosed(Base(c), [], [], lmap)
  {
    hide Abridged, NamedAt, MapOk, Base, Agree, Lean;
    assert Lean(Holes(12), [], []) && MapOk(Holes(12), [], false) by { LeanEmpty(Holes(12)); }
    LeanName(Holes(12), out, [], [], ls, false, full, lmap, false, h);
    assert [] + [Mention(12, false)] == [Mention(12, false)] == Mentions(Base(c), [], [], 0);
    LeanMono(Holes(12) + out, Base(c), [Mention(12, false)], lmap);
  }

  lemma LeanEmpty(img: Image)
    ensures Lean(img, [], []) && MapOk(img, [], false)
  {
  }

  /** The owner name of a record has been written. */
  lemma LeanOwner(frame: Image, content: seq<byte>, out: seq<byte>, ms: seq<Mention>, lmap: seq<Entry>)
    requires |frame| == |content| && Lean(frame + out, ms, lmap)
    ensures Lean(Framed(frame, content + out, []), ms, lmap)
  {
    hide Lean, Framed, Agree;
    FrameOpens(frame, out, content);
    LeanMono(frame + out, Framed(frame, content + out, []), ms, lmap);
  }

  lemma LeanOpens(frame: Image, content: seq<byte>, out: seq<byte>, r: Record, rs: seq<Record>, lay: seq<Slot>,
                  lmap: seq<Entry>)
    requires |frame| == |content| && r.rdata == [] && Shaped(rs, lay)
    requires Lean(Framed(frame, content + out, []), Mentions(frame, rs, lay, |rs|) + [Mention(|content|, true)], lmap)
    ensures LeanOpen(frame, content + out, [], |content|, r, [], rs, lay, lmap)
  {
    hide Lean, Framed, Mentions, Shaped;
    MentionsOpen(frame, rs, lay, |content|, |content + out|, r);
  }

  lemma LeanBlob(frame: Image, content: seq<byte>, record: seq<byte>, start: nat, r: Record, fends: seq<nat>,
                 rs: seq<Record>, lay: seq<Slot>, lmap: seq<Entry>, data: seq<byte>)
    requires LeanOpen(frame, content, record, start, r, fends, rs, lay, lmap)
    ensures LeanOpen(frame, content, record + data, start, r.(rdata := r.rdata + [Blob(data)]),
                     fends + [|content| + 10 + |record + data|], rs, lay, lmap)
  {
    hide Lean, Framed, Mentions, Shaped, Agree, OpenMentions;
    FramedGrows(frame, content, record, data);
    MentionsField(frame, rs, lay, start, |content|, r, fends, Blob(data), |content| + 10 + |record + data|);
    LeanMono(Framed(frame, content, record), Framed(frame, content, record + data),
             OpenMentions(frame, rs, lay, start, |content|, r, fends), lmap);
  }

  lemma LeanField(frame: Image, content: seq<byte>, record: seq<byte>, start: nat, r: Record, fends: seq<nat>,
                  rs: seq<Record>, lay: seq<Slot>, lmap: seq<Entry>, name: seq<byte>, compress: bool, out: seq<byte>)
    requires Shaped(rs, lay) && |fends| == |r.rdata| && |frame| <= |content|
    requires StartOf(|content| + 10, fends, |fends|) == |content| + 10 + |record|
    requires Lean(Framed(frame, content, record + out),
                  OpenMentions(frame, rs, lay, start, |content|, r, fends)
                  + [Mention(|content| + 10 + |record|, compress)], lmap)
    ensures LeanOpen(frame, content, record + out, start, r.(rdata := r.rdata + [Domain(name, compress)]),
                     fends + [|content| + 10 + |record + out|], rs, lay, lmap)
  {
    hide Lean, Framed, Mentions, Shaped, Agree, OpenMentions;
    MentionsField(frame, rs, lay, start, |content|, r, fends, Domain(name, compress), |content| + 10 + |record + out|);
  }

  lemma PendingPlace(frame: Image, content: seq<byte>, record: seq<byte>, start: nat, r: Record, fends: seq<nat>)
    requires PendingIn(frame, content, record, start, r, fends)
    ensures |frame| <= |content| && StartOf(|content| + 10, fends, |fends|) == |content| + 10 + |record|
    ensures NameEnd(Framed(frame, content, record), start) == |content|
  {
    hide Decode, NameEnd, FieldAt, GoodRecord;
  }

  lemma LeanCommit(frame: Image, content: seq<byte>, record: seq<byte>, start: nat, r: Record, fends: seq<nat>,
                   rs: seq<Record>, lay: seq<Slot>, lmap: seq<Entry>)
    requires PendingIn(frame, content, record, start, r, fends) && Concise(frame, rs, lay)
    requires LeanOpen(frame, content, record, start, r, fends, rs, lay, lmap)
    ensures LeanClosed(Framed(frame, content, record), rs + [r],
                       lay + [Slot(start, |content| + 10 + |record|, fends)], lmap)
  {
    PendingPlace(frame, content, record, start, r, fends);
    hide Lean, Framed, Mentions, Shaped, Agree, OpenMentions, PendingIn, NameEnd, AllDecode, Thrifty;
    FramedFrame(frame, content, record);
    MentionsClose(frame, Framed(frame, content, record), rs, lay, |content|, r,
                  Slot(start, |content| + 10 + |record|, fends));
  }

  function InitialHeader(opcode: nat): (h: seq<byte>)
    ensures |h| == 12
  {
    [0, 0, opcode % 16 * 8, 0, 0, 1, 0, 0, 0, 0, 0, 0]
  }

  lemma InitComplete(opcode: nat, q: Question, out: seq<byte>, lmap: seq<Entry>, low: bool)
    requires GoodName(q.name) && GoodLabels(Labels(q.name))
    requires Written(Holes(12), q.name, out, lmap, low) && out == Encoded(Labels(q.name), 0)
    ensures var c := InitialHeader(opcode) + out + U16(q.qtype) + U16(q.qclass);
            Complete(c, q, |c|, [], []) && MapOk(Base(c), lmap, low) && Firm(Base(c), c, q, |c|, [], [])
  {
    var tail := U16(q.qtype) + U16(q.qclass);
    var c := InitialHeader(opcode) + out + U16(q.qtype) + U16(q.qclass);
    assert c == InitialHeader(opcode) + out + tail == InitialHeader(opcode) + (out + tail);
    assert |tail| == 4 && |c| >= 12;
    hide *;
    InitImage(InitialHeader(opcode), out, tail);
    InitCounts(opcode, out + tail);
    WrittenFacts(Holes(12), q.name, out, lmap, low);
    InitQuestion(Base(c), q, out, tail);
    MapMono(Holes(12) + out, Base(c), lmap, low);
    CompleteFold(c, q);
  }

  lemma CompleteFold(content: seq<byte>, q: Question)
    requires CountsAre(content, []) && QuestionAt(Base(content), q, |content|)
    ensures Complete(content, q, |content|, [], []) && Firm(Base(content), content, q, |content|, [], [])
  {
  }

  lemma InitQuestion(img: Image, q: Question, out: seq<byte>, tail: seq<byte>)
    requires GoodName(q.name) && GoodLabels(Labels(q.name)) && out == Encoded(Labels(q.name), 0)
    requires tail == U16(q.qtype) + U16(q.qclass) && |img| == 12 + |out| + |tail|
    requires BytesAt(img, 12, out) && BytesAt(img, 12 + |out|, tail)
    ensures QuestionAt(img, q, |img|)
  {
    EncodedDecode(img, 12, Labels(q.name), 0);
    assert Labels(q.name)[0..] == Labels(q.name);
    assert |tail| == 4;
    hide Encoded, Decode, Labels, GoodName, GoodLabels, BytesAt, U16;
  }

  lemma InitImage(header: seq<byte>, out: seq<byte>, tail: seq<byte>)
    requires |header| == 12
    ensures |Base(header + out + tail)| == 12 + |out| + |tail|
    ensures var c := header + out + tail;
            Agree(Holes(12) + out, Base(c)) && BytesAt(Base(c), 12, out) && BytesAt(Base(c), 12 + |out|, tail)
  {
    var c := header + out + tail;
    assert c[12..] == out + tail;
  }

  lemma InitCounts(opcode: nat, rest: seq<byte>)
    ensures CountsAre(InitialHeader(opcode) + rest, [])
  {
  }

  // ---------------------------------------------------------------- how much is written

  /** The size of a packet once its open record has been committed, and the label map. */
  datatype Draft = Draft(size: nat, lmap: seq<Entry>)

  /** A packet that holds a question only. */
  function FirstDraft(qname: seq<byte>): (d: Draft)
  {
    var name := Spelled([], 12, qname, false);
    Draft(16 + name.0, name.1)
  }

  /** The size of a record's owner name, written behind a packet, and the label map afterwards. */
  function OwnerSize(d: Draft, qname: seq<byte>, name: seq<byte>, canonic: bool): (r: (nat, seq<Entry>))
  {
    if SameText(qname, name) then (2, d.lmap) else Spelled(d.lmap, d.size, name, !canonic)
  }

  /** A record is started: its name and its header. */
  function StartedDraft(d: Draft, qname: seq<byte>, name: seq<byte>, canonic: bool): (r: Draft)
  {
    var owner := OwnerSize(d, qname, name, canonic);
    Draft(d.size + owner.0 + 10, owner.1)
  }

  /** A name among the data of the open record. */
  function NamedDraft(d: Draft, name: seq<byte>, compress: bool): (r: Draft)
  {
    var written := Spelled(d.lmap, d.size, name, compress);
    Draft(d.size + written.0, written.1)
  }

  /** The owner name of a new record: a pointer to the question if the texts agree, else xfrLabel. */
  method RecordName(ghost frame: Image, content: seq<byte>, lmap: seq<Entry>, ghost q: Question, ghost qend: nat,
                    r: Record, canonic: bool, qname: seq<byte>, ghost lower: bool, ghost rs: seq<Record>,
                    ghost lay: seq<Slot>)
    returns (out: seq<byte>, lmap': seq<Entry>)
    requires |content| >= 12 && Blank(r) && qname == q.name
    requires Firm(frame, content, q, qend, rs, lay) && MapOk(frame, lmap, lower) && (lower ==> LowerName(q.name))
    ensures 12 <= |frame| == |content| && PendingIn(frame, content + out, [], |content|, r, [])
    ensures MapOk(Framed(frame, content + out, []), lmap', lower && LowerName(r.name))
    ensures NamedLow(Base(content + out), |content|, Labels(r.name), Budget(Labels(r.name)), lower && LowerName(r.name))
    ensures GoodLabels(Labels(r.name)) && |out| <= NameSize(r.name)
    ensures (|out|, lmap') == OwnerSize(Draft(|content|, lmap), qname, r.name, canonic)
    ensures !canonic && LeanClosed(frame, rs, lay, lmap) ==>
              LeanOpen(frame, content + out, [], |content|, r, [], rs, lay, lmap')
  {
    NameSizeBounds(r.name);
    hide Firm, LeanClosed, LeanOpen, Abridged, Spelled, PendingIn, MapOk, SameText, Written, Labels, Framed, Base,
         QuestionAt, Encoded, NameSize, NamedLow, LowerLabels, LowerName, Agree, GoodName, GoodLabels, Stands,
         NamedAt, Budget;
    FirmParts(frame, content, q, qend, rs, lay);
    ghost var low := lower && LowerName(r.name);
    MapWeaken(frame, lmap, lower, low);
    if low {
      LowerNameLabels(q.name);
      LowerNameLabels(r.name);
    }
    if SameText(qname, r.name) {
      OpenSeeQuestion(frame, content, lmap, q, qend, r, low);
      out, lmap' := [0xc0, 12], lmap;
      if !canonic && LeanClosed(frame, rs, lay, lmap) {
        LeanSeeQuestion(frame, q, qend, content, r, rs, lay, lmap);
      }
    } else {
      out, lmap' := OwnName(frame, content, lmap, r, canonic, low, rs, lay);
    }
  }

  /** A name other than the question's, through xfrLabel. */
  method OwnName(ghost frame: Image, content: seq<byte>, lmap: seq<Entry>, r: Record, canonic: bool, ghost low: bool,
                 ghost rs: seq<Record>, ghost lay: seq<Slot>)
    returns (out: seq<byte>, lmap': seq<Entry>)
    requires 12 <= |frame| == |content| && Agree(frame, Base(content)) && Blank(r)
    requires MapOk(frame, lmap, low) && (low ==> LowerLabels(Labels(r.name)))
    ensures PendingIn(frame, content + out, [], |content|, r, []) && MapOk(Framed(frame, content + out, []), lmap', low)
    ensures NamedLow(Base(content + out), |content|, Labels(r.name), Budget(Labels(r.name)), low)
    ensures GoodLabels(Labels(r.name)) && |out| <= |Encoded(Labels(r.name), 0)|
    ensures (|out|, lmap') == Spelled(lmap, |content|, r.name, !canonic)
    ensures !canonic && LeanClosed(frame, rs, lay, lmap) ==>
              LeanOpen(frame, content + out, [], |content|, r, [], rs, lay, lmap')
  {
    assert GoodName(r.name);
    hide *;
    ghost var full;
    out, lmap', full := WriteName(frame, |content|, lmap, r.name, !canonic, low);
    OpenWritten(frame, content, out, lmap', r, low);
    if !canonic && LeanClosed(frame, rs, lay, lmap) {
      WrittenFacts(frame, r.name, out, lmap', low);
      NamedPlain(frame + out, |frame|, Labels(r.name), |Labels(r.name)|, low);
      LeanOwnerName(frame, content, out, r, rs, lay, lmap, full, lmap', low);
    }
  }

  lemma NamedPlain(img: Image, pos: nat, ls: seq<seq<byte>>, hops: nat, low: bool)
    requires NamedLow(img, pos, ls, hops, low)
    ensures NamedAt(img, pos, ls, hops)
  {
  }

  lemma LeanSeeQuestion(frame: Image, q: Question, qend: nat, content: seq<byte>, r: Record, rs: seq<Record>,
                        lay: seq<Slot>, lmap: seq<Entry>)
    requires QuestionAt(frame, q, qend) && SameText(q.name, r.name) && |frame| == |content| && Blank(r)
    requires LeanClosed(frame, rs, lay, lmap)
    ensures LeanOpen(frame, content + [0xc0, 12], [], |content|, r, [], rs, lay, lmap)
  {
    var out: seq<byte> := [0xc0, 12];
    var ms := ClosedMentions(frame, rs, lay, lmap);
    QuestionMono(frame, frame + out, q, qend);
    assert (frame + out)[|frame|] == 0xc0 && (frame + out)[|frame| + 1] == 12;
    hide Lean, QuestionAt, Labels, SameText, LeanOpen, LeanClosed, Shaped, Mentions;
    SeeQuestion(frame + out, q, qend, |frame|, r.name, false);
    LeanPointer(frame, out, ms, lmap, true);
    LeanOwner(frame, content, out, ms + [Mention(|content|, true)], lmap);
    LeanOpens(frame, content, out, r, rs, lay, lmap);
  }

  lemma LeanOwnerName(frame: Image, content: seq<byte>, out: seq<byte>, r: Record, rs: seq<Record>, lay: seq<Slot>,
                      lmap: seq<Entry>, full: nat, lmap': seq<Entry>, low: bool)
    requires |frame| == |content| && Blank(r) && MapOk(frame, lmap, low) && GoodLabels(Labels(r.name))
    requires LeanClosed(frame, rs, lay, lmap)
    requires Abridged(lmap, |frame|, Labels(r.name), true, full, out, lmap')
    requires NamedAt(frame + out, |frame|, Labels(r.name), |Labels(r.name)|)
    ensures LeanOpen(frame, content + out, [], |content|, r, [], rs, lay, lmap')
  {
    hide Lean, Labels, GoodLabels, LeanOpen, LeanClosed, Shaped, Mentions, MapOk, Abridged, NamedAt;
    var ms := ClosedMentions(frame, rs, lay, lmap);
    LeanName(frame, out, ms, lmap, Labels(r.name), true, full, lmap', low, |Labels(r.name)|);
    LeanOwner(frame, content, out, ms + [Mention(|content|, true)], lmap');
    LeanOpens(frame, content, out, r, rs, lay, lmap');
  }

  /** A name among the data of the open record. */
  method DataName(ghost frame: Image, ghost content: seq<byte>, ghost record: seq<byte>, ghost start: nat,
                  ghost r: Record, ghost fends: seq<nat>, lmap: seq<Entry>, pos: nat, name: seq<byte>,
                  ghost wanted: bool, compress: bool, ghost lower: bool, ghost rs: seq<Record>,
                  ghost lay: seq<Slot>)
    returns (out: seq<byte>, lmap': seq<Entry>)
    requires PendingIn(frame, content, record, start, r, fends) && |frame| <= |content|
    requires MapOk(Framed(frame, content, record), lmap, lower)
    requires GoodName(name) && pos == |content| + |record| + 10
    ensures out != [] && GoodLabels(Labels(name)) && |out| <= |Encoded(Labels(name), 0)|
    ensures !compress ==> out == Encoded(Labels(name), 0)
    ensures PendingIn(frame, content, record + out, start, r.(rdata := r.rdata + [Domain(name, wanted)]),
                      fends + [|content| + 10 + |record + out|])
    ensures MapOk(Framed(frame, content, record + out), lmap', lower && LowerName(name))
    ensures (|out|, lmap') == Spelled(lmap, pos, name, compress)
    ensures wanted == compress && LeanOpen(frame, content, record, start, r, fends, rs, lay, lmap) ==>
              LeanOpen(frame, content, record + out, start, r.(rdata := r.rdata + [Domain(name, wanted)]),
                       fends + [|content| + 10 + |record + out|], rs, lay, lmap')
  {
    hide LeanOpen, Abridged, Agree, Spelled, PendingIn, MapOk, Written, Labels, Framed, NamedAt, NameEnd, GoodName,
         Encoded, LowerName, LowerLabels, NamedLow;
    ghost var low := lower && LowerName(name);
    MapWeaken(Framed(frame, content, record), lmap, lower, low);
    if low {
      LowerNameLabels(name);
    }
    ghost var full;
    out, lmap', full := WriteName(Framed(frame, content, record), pos, lmap, name, compress, low);
    WrittenFacts(Framed(frame, content, record), name, out, lmap', low);
    PendingName(frame, content, record, start, r, fends, lmap', name, wanted, out, low);
    if wanted == compress && LeanOpen(frame, content, record, start, r, fends, rs, lay, lmap) {
      NamedPlain(Framed(frame, content, record) + out, pos, Labels(name), |Labels(name)|, low);
      PendingPlace(frame, content, record, start, r, fends);
      LeanDataName(frame, content, record, start, r, fends, rs, lay, lmap, name, compress, full, out, lmap', low);
    }
  }

  lemma LeanDataName(frame: Image, content: seq<byte>, record: seq<byte>, start: nat, r: Record, fends: seq<nat>,
                     rs: seq<Record>, lay: seq<Slot>, lmap: seq<Entry>, name: seq<byte>, compress: bool, full: nat,
                     out: seq<byte>, lmap': seq<Entry>, low: bool)
    requires LeanOpen(frame, content, record, start, r, fends, rs, lay, lmap)
    requires StartOf(|content| + 10, fends, |fends|) == |content| + 10 + |record| && GoodLabels(Labels(name))
    requires |frame| <= |content| && MapOk(Framed(frame, content, record), lmap, low)
    requires Abridged(lmap, |content| + 10 + |record|, Labels(name), compress, full, out, lmap')
    requires NamedAt(Framed(frame, content, record) + out, |content| + 10 + |record|, Labels(name), |Labels(name)|)
    ensures LeanOpen(frame, content, record + out, start, r.(rdata := r.rdata + [Domain(name, compress)]),
                     fends + [|content| + 10 + |record + out|], rs, lay, lmap')
  {
    hide Lean, Labels, GoodLabels, LeanOpen, Shaped, MapOk, Abridged, NamedAt, Framed, OpenMentions, Agree;
    var ms := MentionsSoFar(frame, content, record, start, r, fends, rs, lay, lmap);
    LeanName(Framed(frame, content, record), out, ms, lmap, Labels(name), compress, full, lmap', low, |Labels(name)|);
    FramedGrows(frame, content, record, out);
    LeanField(frame, content, record, start, r, fends, rs, lay, lmap', name, compress, out);
  }

  lemma ClosedMentions(frame: Image, rs: seq<Record>, lay: seq<Slot>, lmap: seq<Entry>) returns (ms: seq<Mention>)
    requires LeanClosed(frame, rs, lay, lmap)
    ensures Shaped(rs, lay) && ms == Mentions(frame, rs, lay, |rs|) && Lean(frame, ms, lmap)
  {
    ms := Mentions(frame, rs, lay, |rs|);
  }

  lemma MentionsSoFar(frame: Image, content: seq<byte>, record: seq<byte>, start: nat, r: Record, fends: seq<nat>,
                      rs: seq<Record>, lay: seq<Slot>, lmap: seq<Entry>) returns (ms: seq<Mention>)
    requires LeanOpen(frame, content, record, start, r, fends, rs, lay, lmap)
    ensures Shaped(rs, lay) && |fends| == |r.rdata| && |frame| <= |content|
    ensures ms == OpenMentions(frame, rs, lay, start, |content|, r, fends)
    ensures Lean(Framed(frame, content, record), ms, lmap)
  {
    ms := OpenMentions(frame, rs, lay, start, |content|, r, fends);
  }

  /** Header bytes 0..4 carry no structure. */
  lemma FlagsKeep(a: seq<byte>, b: seq<byte>)
    requires |a| == |b| >= 12 && a[4..] == b[4..]
    ensures Base(a) == Base(b)
    ensures forall rs :: CountsAre(a, rs) ==> CountsAre(b, rs)
  {
    hide Count;
    assert forall i :: 4 <= i < |a| ==> a[i] == a[4..][i - 4] == b[4..][i - 4] == b[i];
  }

  lemma FlagsComplete(frame: Image, a: seq<byte>, b: seq<byte>, q: Question, qend: nat, rs: seq<Record>, lay: seq<Slot>)
    requires |a| == |b| >= 12 && a[4..] == b[4..] && Complete(a, q, qend, rs, lay) && Firm(frame, a, q, qend, rs, lay)
    ensures Complete(b, q, qend, rs, lay) && Firm(frame, b, q, qend, rs, lay)
  {
    hide CountsAre, Base, QuestionAt, RecordsAt, Stands;
    FlagsKeep(a, b);
  }

  lemma FlagsPending(frame: Image, a: seq<byte>, b: seq<byte>, record: seq<byte>, start: nat, r: Record,
                     fends: seq<nat>)
    requires |a| == |b| >= 12 && a[4..] == b[4..] && PendingIn(frame, a, record, start, r, fends)
    ensures 12 <= |frame| <= |a| && Framed(frame, a, record) == Framed(frame, b, record)
    ensures PendingIn(frame, b, record, start, r, fends)
  {
    hide PendingAt;
    assert a[|frame|..] == a[4..][|frame| - 4..] && b[|frame|..] == b[4..][|frame| - 4..];
  }

  lemma FlagsPrefix(a: seq<byte>, b: seq<byte>, k: nat)
    requires |a| == |b| && 12 <= k <= |a| && a[4..] == b[4..]
    ensures a[..k][4..] == b[..k][4..]
  {
    assert a[..k][4..] == a[4..][..k - 4] && b[..k][4..] == b[4..][..k - 4];
  }

  /** The header and the question, its name written in full. */
  method WriteQuestion(q: Question, opcode: nat) returns (c: seq<byte>, lmap: seq<Entry>)
    requires GoodName(q.name)
    ensures |c| >= 12 && GoodLabels(Labels(q.name))
    ensures c == InitialHeader(opcode) + Encoded(Labels(q.name), 0) + U16(q.qtype) + U16(q.qclass)
    ensures Complete(c, q, |c|, [], []) && Firm(Base(c), c, q, |c|, [], [])
    ensures MapOk(Base(c), lmap, LowerName(q.name)) && Draft(|c|, lmap) == FirstDraft(q.name)
    ensures LeanClosed(Base(c), [], [], lmap) && Concise(Base(c), [], [])
  {
    ghost var low := LowerName(q.name);
    if low {
      LowerNameLabels(q.name);
    }
    hide *;
    var out;
    ghost var full;
    out, lmap, full := WriteName(Holes(12), 12, [], q.name, false, low);
    c := InitialHeader(opcode) + out + U16(q.qtype) + U16(q.qclass);
    assert c == InitialHeader(opcode) + out + (U16(q.qtype) + U16(q.qclass));
    InitComplete(opcode, q, out, lmap, low);
    InitImage(InitialHeader(opcode), out, U16(q.qtype) + U16(q.qclass));
    WrittenFacts(Holes(12), q.name, out, lmap, low);
    NamedPlain(Holes(12) + out, 12, Labels(q.name), |Labels(q.name)|, low);
    LeanInit(c, out, lmap, Labels(q.name), full, |Labels(q.name)|);
    LeanConcise(Base(c), [], [], lmap);
    FirstDraftIs(q.name, |out|, lmap);
  }

  lemma FirstDraftIs(qname: seq<byte>, n: nat, lmap: seq<Entry>)
    requires (n, lmap) == Spelled([], 12, qname, false)
    ensures FirstDraft(qname) == Draft(16 + n, lmap)
  {
    hide Spelled;
  }

  /** The writer object. d_content is finished up to the open record's name, d_record is the open
      record's data; d_stuff is what is still to be interspersed before d_record. */
  class DNSPacketWriter {
    var content: seq<byte>
    var record: seq<byte>
    var lmap: seq<Entry>
    var stuff: nat
    var rollbackMarker: nat
    const question: Question
    var current: Record
    var canonic: bool

    /** What the packet holds: the finished records and where they stand. */
    ghost var records: seq<Record>
    ghost var layout: seq<Slot>
    ghost var questionEnd: nat
    /** The finished part with all record headers as holes. */
    ghost var frame: Image
    /** Where the fields of the open record end. */
    ghost var fieldEnds: seq<nat>
    /** Only names without capital letters have been written. */
    ghost var lower: bool

    /** A record has been started and neither committed nor rolled back. */
    predicate Open()
      reads this`stuff
    {
      stuff == 10
    }

    /** The finished part of the content. */
    function Finished(): (c: seq<byte>)
      reads this`content, this`stuff, this`rollbackMarker
    {
      if Open() && rollbackMarker <= |content| then content[..rollbackMarker] else content
    }

    /** The packet is well formed; after a rollback the label map no longer counts. */
    ghost predicate Wire()
      reads this
    {
      && Complete(Finished(), question, questionEnd, records, layout)
      && Firm(frame, Finished(), question, questionEnd, records, layout)
      && (Open() ==>
            rollbackMarker <= |content| && PendingIn(frame, content, record, rollbackMarker, current, fieldEnds))
      && (!Open() ==> record == [])
      && (!canonic ==> Concise(frame, records, layout))
    }

    /** All names so far are written as short as the label map allows, and it has all there is. */
    ghost predicate Saving()
      reads this
    {
      if Open() then LeanOpen(frame, content, record, rollbackMarker, current, fieldEnds, records, layout, lmap)
      else LeanClosed(frame, records, layout, lmap)
    }

    /** Wire, and every remembered suffix decodes in whatever the message becomes. */
    ghost predicate Valid()
      reads this
    {
      && Wire() && |content| >= 12 && (lower ==> LowerName(question.name))
      && |frame| <= |content| && MapOk(if Open() then Framed(frame, content, record) else frame, lmap, lower)
      && (!canonic ==> Saving())
    }

    /** The owner name of the open record decodes to its labels; without capitals, if there are none. */
    ghost predicate NameStands()
      reads this
    {
      |content| >= 12
      && NamedLow(Base(content), rollbackMarker, Labels(current.name), Budget(Labels(current.name)), lower)
    }

    constructor (qname: seq<byte>, qtype: u16, qclass: u16, opcode: nat)
      requires GoodName(qname)
      ensures Valid() && !Open() && records == [] && question == Question(qname, qtype, qclass)
      ensures |content| == 12 + |Encoded(Labels(qname), 0)| + 4
      ensures content == InitialHeader(opcode) + Encoded(Labels(qname), 0) + U16(qtype) + U16(qclass)
      ensures stuff == 0xffff && !canonic && lower == LowerName(qname)
      ensures Drafted() == FirstDraft(qname)
    {
      question := Question(qname, qtype, qclass);
      var c, names := WriteQuestion(Question(qname, qtype, qclass), opcode);
      content, lmap := c, names;
      record, stuff, rollbackMarker := [], 0xffff, 0;
      current := Record([], 0, 0, 0, Answer, []);
      canonic := false;
      lower := LowerName(qname);
      records, layout, fieldEnds := [], [], [];
      questionEnd, frame := |c|, Base(c);
      new;
      hide Complete, MapOk, Encoded, Spelled, Concise, LeanClosed, Firm;
    }

    function Size(): (n: nat)
      reads this
    {
      |content| + stuff + |record|
    }

    /** The size once a record that is open has been committed. */
    function Bulk(): (n: nat)
      reads this
    {
      if Open() then Size() else |content|
    }

    ghost function Drafted(): (d: Draft)
      reads this
    {
      Draft(Bulk(), lmap)
    }

    /** Completes the packet with the open record. */
    method Commit()
      requires Valid() && Open() && Size() <= 65535
      modifies this
      ensures Valid() && !Open()
      ensures records == old(records) + [old(current)] && content == Committed(old(content), old(record), old(current))
      ensures content[..6] == old(content[..6])
      ensures |content| == old(Size()) && questionEnd == old(questionEnd) && canonic == old(canonic)
      ensures lower == old(lower)
      ensures layout == old(layout) + [Slot(old(rollbackMarker), |content|, old(fieldEnds))]
      ensures Drafted() == old(Drafted())
    {
      hide Complete, Firm, PendingIn, Framed, MapOk, Bump, RecordHeader, Committed, LeanOpen, LeanClosed, Concise;
      PendingBounds(frame, content, record, rollbackMarker, current, fieldEnds);
      CommitHead(content, record, current);
      CommitComplete(frame, content, record, rollbackMarker, question, questionEnd, records, layout, current,
                     fieldEnds);
      if !canonic {
        LeanCommit(frame, content, record, rollbackMarker, current, fieldEnds, records, layout, lmap);
        LeanConcise(Framed(frame, content, record), records + [current],
                    layout + [Slot(rollbackMarker, |content| + 10 + |record|, fieldEnds)], lmap);
      }
      frame := Framed(frame, content, record);
      content := Committed(content, record, current);
      records := records + [current];
      layout := layout + [Slot(rollbackMarker, |content|, fieldEnds)];
      stuff, record := 0, [];
    }
  
    /** Starts a record, completing the one before it. A name equal to the question's is written as
        a pointer to it without looking at the label map. */
    method StartRecord(name: seq<byte>, qtype: u16, ttl: u32, qclass: u16, place: Place)
      requires Valid() && GoodName(name)
      requires if Open() then record != [] && Size() <= 65535 else |content| <= 65535
      modifies this
      ensures Valid() && Open() && record == []
      ensures current == Record(name, qtype, qclass, ttl, place, [])
      ensures records == old(records) + (if old(Open()) then [old(current)] else [])
      ensures GoodLabels(Labels(name)) && Size() <= old(Bulk()) + 10 + NameSize(name)
      ensures Finished() == if old(Open()) then Committed(old(content), old(record), old(current)) else old(content)
      ensures content[..6] == old(content[..6])
      ensures questionEnd == old(questionEnd) && canonic == old(canonic) && lower == (old(lower) && LowerName(name))
      ensures Drafted() == StartedDraft(old(Drafted()), question.name, name, canonic)
      ensures NameStands()
    {
      hide Complete, Firm, PendingIn, Framed, MapOk, Bump, RecordHeader, Committed, SameText, Written, Labels,
           NameSize, StartedDraft, LeanOpen, LeanClosed, Concise;
      if Open() {
        Commit();
      }
      OpenFresh(Record(name, qtype, qclass, ttl, place, []));
    }

    /** The part of startRecord after a pending record has been committed. */
    method OpenFresh(r: Record)
      requires Valid() && !Open() && Blank(r) && |content| <= 65535
      modifies this
      ensures Valid() && Open() && record == [] && current == r
      ensures records == old(records) && Finished() == old(content)
      ensures GoodLabels(Labels(r.name)) && Size() <= |old(content)| + 10 + NameSize(r.name)
      ensures content[..6] == old(content[..6])
      ensures questionEnd == old(questionEnd) && canonic == old(canonic) && lower == (old(lower) && LowerName(r.name))
      ensures Drafted() == StartedDraft(old(Drafted()), question.name, r.name, canonic)
      ensures NameStands()
    {
      hide Complete, Firm, PendingIn, MapOk, Framed, Base, QuestionAt, NameSize, Labels, LowerName, LowerLabels,
           GoodLabels, Lower, NamedLow, GoodName, OwnerSize, Stands, Agree, LeanOpen, LeanClosed, Concise, PendingAt,
           NamedAt, Budget, Mentions, Shaped;
      var out, written := RecordName(frame, content, lmap, question, questionEnd, r, canonic, question.name, lower,
                                     records, layout);
      lower := lower && LowerName(r.name);
      current := r;
      rollbackMarker := |content|;
      fieldEnds := [];
      content, lmap := content + out, written;
      assert content[..rollbackMarker] == old(content);
      stuff := 10;
    }

    /** Appends opaque bytes to the open record (xfrBlob, and the integer fields). */
    method XfrBlob(data: seq<byte>)
      requires Valid() && Open()
      modifies this`record, this`current, this`fieldEnds
      ensures Valid()
      ensures record == old(record) + data
      ensures current == old(current).(rdata := old(current).rdata + [Blob(data)])
    {
      hide Complete, Firm, PendingIn, Framed, MapOk, LeanOpen, Concise;
      if !canonic {
        LeanBlob(frame, content, record, rollbackMarker, current, fieldEnds, records, layout, lmap, data);
      }
      PendingBlob(frame, content, record, rollbackMarker, current, fieldEnds, lmap, data, lower);
      record := record + data;
      current := current.(rdata := current.rdata + [Blob(data)]);
      fieldEnds := fieldEnds + [|content| + 10 + |record|];
    }

    method Xfr16BitInt(val: u16)
      requires Valid() && Open()
      modifies this`record, this`current, this`fieldEnds
      ensures Valid() && record == old(record) + U16(val)
      ensures current == old(current).(rdata := old(current).rdata + [Blob(U16(val))])
    {
      XfrBlob(U16(val));
    }

    /** Appends a name to the open record; canonic writers never compress. */
    method XfrLabel(name: seq<byte>, compress: bool)
      requires Valid() && Open() && GoodName(name)
      modifies this`record, this`current, this`fieldEnds, this`lmap, this`lower
      ensures Valid() && lower == (old(lower) && LowerName(name))
      ensures current == old(current).(rdata := old(current).rdata + [Domain(name, compress)])
      ensures old(record) < record
      ensures GoodLabels(Labels(name)) && |record| <= |old(record)| + |Encoded(Labels(name), 0)|
      ensures !compress ==> record == old(record) + Encoded(Labels(name), 0)
      ensures Drafted() == NamedDraft(old(Drafted()), name, compress && !canonic)
    {
      hide Complete, Firm, PendingIn, Framed, MapOk, Labels, GoodName, Encoded, LowerName, GoodLabels, Spelled,
           LeanOpen, Concise;
      var out, written := DataName(frame, content, record, rollbackMarker, current, fieldEnds, lmap,
                                   |content| + |record| + stuff, name, compress, compress && !canonic, lower,
                                   records, layout);
      record, lmap, lower := record + out, written, lower && LowerName(name);
      current := current.(rdata := current.rdata + [Domain(name, compress)]);
      fieldEnds := fieldEnds + [|content| + 10 + |record|];
    }

    /** Drops the record being written. The label map is kept, so Valid is lost, Wire is not. */
    method Rollback()
      requires Wire() && Open()
      modifies this
      ensures Wire() && !Open() && records == old(records) && content == old(Finished()) && canonic == old(canonic)
      ensures questionEnd == old(questionEnd) && Complete(content, question, questionEnd, records, layout)
    {
      hide Complete, Firm, PendingIn, Concise;
      content := content[..rollbackMarker];
      record := [];
      stuff := 0;
    }

    /** Sets the identification and flag bytes (getHeader()->...). */
    method SetFlags(id: u16, flags: byte, flags2: byte)
      requires Wire() && |content| >= 12
      modifies this`content
      ensures Wire() && (old(Valid()) ==> Valid())
      ensures content == U16(id) + [flags, flags2] + old(content)[4..]
      ensures Finished() == U16(id) + [flags, flags2] + old(Finished())[4..]
    {
      hide Complete, Firm, PendingIn, Framed, MapOk, U16, Lean, Concise, LeanClosed, OpenMentions, Shaped;
      var c := U16(id) + [flags, flags2] + content[4..];
      assert c[4..] == content[4..];
      if Open() {
        PendingLong(frame, content, record, rollbackMarker, current, fieldEnds);
        FlagsPrefix(content, c, rollbackMarker);
        FlagsComplete(frame, content[..rollbackMarker], c[..rollbackMarker], question, questionEnd, records, layout);
        FlagsPending(frame, content, c, record, rollbackMarker, current, fieldEnds);
        assert c[..rollbackMarker] == U16(id) + [flags, flags2] + content[..rollbackMarker][4..];
      } else {
        FlagsComplete(frame, content, c, question, questionEnd, records, layout);
      }
      content := c;
    }
  }
}
