/** MOADNSParser::init: a whole packet, and the proof that it reads back what the writer wrote. */
module MessageParser {
  import opened Bytes
  import opened Names
  import opened Wire
  import opened MessageReader
  import opened RecordReader
  import NameWriter
  import opened Compression
  import opened PacketWriter

  /** One parsed record, its section and the content position after it. */
  datatype Entry = Entry(record: ParsedRecord, place: Place, end: nat)

  datatype Query = Query(name: seq<byte>, qtype: u16, qclass: u16)

  datatype Message = Message(qdcount: nat, ancount: nat, nscount: nat, arcount: nat, query: Query,
                             answers: seq<Entry>, tsigPos: nat)

  datatype Parse = Parsed(message: Message) | Rejected

  function Field16(packet: seq<byte>, k: nat): (v: u16)
    requires k + 2 <= |packet|
  {
    Get16(packet[k], packet[k + 1])
  }

  function Opcode(packet: seq<byte>): (r: nat)
    requires |packet| >= 12
  {
    packet[2] / 8 % 16
  }

  function Truncated(packet: seq<byte>): (r: bool)
    requires |packet| >= 12
  {
    packet[2] / 2 % 2 == 1
  }

  /** The section of the n-th record. */
  function PlaceOf(an: nat, ns: nat, n: nat): (p: Place)
  {
    if n < an then Answer else if n < an + ns then Authority else Additional
  }

  function ReadQuestions(content: seq<byte>, pos: nat, n: nat, q: Query): (r: Read<Query>)
    decreases n
  {
    if n == 0 then Got(q, pos)
    else match ReadText(content, pos)
      case Fail(f) => Fail(f)
      case Got(name, p) =>
        match Take(content, p, 4)
        case Fail(f) => Fail(f)
        case Got(b, p') => ReadQuestions(content, p', n - 1, Query(name, Get16(b[0], b[1]), Get16(b[2], b[3])))
  }

  /** The records read before the loop stopped, and why it stopped. */
  datatype Records =
    | All(answers: seq<Entry>, tsigPos: nat)
    | Stopped(answers: seq<Entry>, tsigPos: nat, failure: Failure)

  function ReadRecords(content: seq<byte>, pos: nat, types: TypeMap, an: nat, ns: nat, total: nat, answers: seq<Entry>,
                       tsigPos: nat): (r: Records)
    decreases total - |answers|
  {
    if |answers| >= total then All(answers, tsigPos)
    else match ReadRecord(content, pos, types)
      case Fail(f) => Stopped(answers, tsigPos, f)
      case Got(rec, p) =>
        ReadRecords(content, p, types, an, ns, total, answers + [Entry(rec, PlaceOf(an, ns, |answers|), p)],
                    if rec.qtype == TSIG && rec.qclass == 0xff then pos + 12 else tsigPos)
  }

  /** Counts after the record loop: an out-of-range stop is forgiven in a truncated packet, and the
      counts are cut to the records that were read. */
  function Conclude(packet: seq<byte>, query: Query, r: Records): (p: Parse)
    requires |packet| >= 12
  {
    var qd, an, ns, ar: nat := Field16(packet, 4), Field16(packet, 6), Field16(packet, 8), Field16(packet, 10);
    match r
    case All(answers, t) => Parsed(Message(qd, an, ns, ar, query, answers, t))
    case Stopped(answers, t, f) =>
      if f != Beyond || !Truncated(packet) then Rejected
      else
        var n := |answers|;
        if n < an then Parsed(Message(qd, n, 0, 0, query, answers, t))
        else if n < an + ns then Parsed(Message(qd, an, n - an, 0, query, answers, t))
        else Parsed(Message(qd, an, ns, n - an - ns, query, answers, t))
  }

  function ReadSections(packet: seq<byte>, types: TypeMap): (p: Parse)
    requires |packet| >= 12
  {
    var content := packet[12..];
    var an, ns, ar: nat := Field16(packet, 6), Field16(packet, 8), Field16(packet, 10);
    match ReadQuestions(content, 0, Field16(packet, 4), Query([], 0, 0))
    case Fail(f) => Rejected
    case Got(query, p) => Conclude(packet, query, ReadRecords(content, p, types, an, ns, an + ns + ar, [], 0))
  }

  function ParseMessage(packet: seq<byte>, types: TypeMap): (p: Parse)
  {
    if |packet| < 12 || (Opcode(packet) != 0 && Opcode(packet) != 4) then Rejected
    else ReadSections(packet, types)
  }

  /** MOADNSParser::init. */
  method Init(packet: seq<byte>, types: TypeMap) returns (p: Parse)
    requires |packet| <= 65535
    ensures p == ParseMessage(packet, types)
  {
    hide ReadText, Take, ReadRecord, Get16;
    if |packet| < 12 || (Opcode(packet) != 0 && Opcode(packet) != 4) {
      return Rejected;
    }
    var content := packet[12..];
    var pr := new PacketReader(content);
    var qd, an, ns, ar := Field16(packet, 4), Field16(packet, 6), Field16(packet, 8), Field16(packet, 10);
    var query := Query([], 0, 0);
    var n: nat := 0;
    while n < qd
      invariant n <= qd
      invariant ReadQuestions(content, pr.pos, qd - n, query) == ReadQuestions(content, 0, qd, Query([], 0, 0))
    {
      var name := pr.GetLabel();
      if name.Fail? {
        return Rejected;
      }
      var b := pr.CopyRecord(4);
      if b.Fail? {
        return Rejected;
      }
      query := Query(name.value, Get16(b.value[0], b.value[1]), Get16(b.value[2], b.value[3]));
      n := n + 1;
    }
    var r := InitRecords(pr, types, an, ns, ar);
    p := Conclude(packet, query, r);
  }

  /** The record loop of MOADNSParser::init. */
  method InitRecords(pr: PacketReader, types: TypeMap, an: nat, ns: nat, ar: nat) returns (r: Records)
    requires |pr.content| <= 65523
    modifies pr
    ensures r == ReadRecords(pr.content, old(pr.pos), types, an, ns, an + ns + ar, [], 0)
  {
    hide ReadRecord;
    var total := an + ns + ar;
    var answers: seq<Entry>, tsigPos := [], 0;
    while |answers| < total
      invariant |answers| <= total
      invariant ReadRecords(pr.content, pr.pos, types, an, ns, total, answers, tsigPos)
             == ReadRecords(pr.content, old(pr.pos), types, an, ns, total, [], 0)
    {
      var recordStartPos := pr.pos;
      var rec := pr.NextRecord(types);
      if rec.Fail? {
        return Stopped(answers, tsigPos, rec.failure);
      }
      answers := answers + [Entry(rec.value, PlaceOf(an, ns, |answers|), pr.pos)];
      if rec.value.qtype == TSIG && rec.value.qclass == 0xff {
        tsigPos := recordStartPos + 12;
      }
    }
    r := All(answers, tsigPos);
  }

  // ---------------------------------------------------------------- the writer's packets

  function Rank(p: Place): (n: nat)
  {
    match p
    case Answer => 1
    case Authority => 2
    case Additional => 3
  }

  /** Packets are written in natural order: answers, authority, additional. */
  predicate Ordered(rs: seq<Record>)
  {
    forall i, j :: 0 <= i < j < |rs| ==> Rank(rs[i].place) <= Rank(rs[j].place)
  }

  lemma {:induction false} CountNone(rs: seq<Record>, p: Place)
    requires forall i :: 0 <= i < |rs| ==> rs[i].place != p
    ensures Count(rs, p) == 0
  {
    if rs != [] {
      CountNone(rs[..|rs| - 1], p);
    }
  }

  /** In natural order the section counts determine every record's section, as the reader assumes. */
  lemma {:induction false} PlacesAgree(rs: seq<Record>)
    requires Ordered(rs)
    ensures Count(rs, Answer) + Count(rs, Authority) + Count(rs, Additional) == |rs|
    ensures forall i :: 0 <= i < |rs| ==> PlaceOf(Count(rs, Answer), Count(rs, Authority), i) == rs[i].place
  {
    SectionsSum(rs);
    if rs != [] {
      hide PlaceOf, Count, Rank;
      var n := |rs| - 1;
      FrontOrdered(rs);
      PlacesAgree(rs[..n]);
      NoneLater(rs, Authority);
      NoneLater(rs, Additional);
      PlaceSnoc(rs[..n], rs, n);
    }
  }

  lemma FrontOrdered(rs: seq<Record>)
    requires Ordered(rs) && rs != []
    ensures Ordered(rs[..|rs| - 1]) && forall i :: 0 <= i < |rs| - 1 ==> rs[..|rs| - 1][i] == rs[i]
  {
  }

  /** Before the last record there is none of a later section. */
  lemma NoneLater(rs: seq<Record>, p: Place)
    requires Ordered(rs) && rs != []
    ensures Rank(p) > Rank(rs[|rs| - 1].place) ==> Count(rs[..|rs| - 1], p) == 0
  {
    hide Count;
    if Rank(p) > Rank(rs[|rs| - 1].place) {
      forall i | 0 <= i < |rs| - 1
        ensures rs[i].place != p
      {
        assert Rank(rs[i].place) <= Rank(rs[|rs| - 1].place);
      }
      CountNone(rs[..|rs| - 1], p);
    }
  }

  lemma PlaceSnoc(front: seq<Record>, rs: seq<Record>, n: nat)
    requires n + 1 == |rs| && front == rs[..n]
    requires Count(front, Answer) + Count(front, Authority) + Count(front, Additional) == n
    requires forall i :: 0 <= i < n ==> PlaceOf(Count(front, Answer), Count(front, Authority), i) == rs[i].place
    requires rs[n].place == Answer ==> Count(front, Authority) == 0 && Count(front, Additional) == 0
    requires rs[n].place == Authority ==> Count(front, Additional) == 0
    ensures forall i :: 0 <= i < |rs| ==> PlaceOf(Count(rs, Answer), Count(rs, Authority), i) == rs[i].place
  {
    CountUnfold(rs, Answer);
    CountUnfold(rs, Authority);
    hide Count;
  }

  lemma CountUnfold(rs: seq<Record>, p: Place)
    requires rs != []
    ensures Count(rs, p) == Count(rs[..|rs| - 1], p) + (if rs[|rs| - 1].place == p then 1 else 0)
  {
  }

  predicate EntryMatches(e: Entry, r: Record)
  {
    RecordMatches(e.record, r) && e.place == r.place
  }

  predicate EndsInTsig(rs: seq<Record>)
  {
    rs != [] && rs[|rs| - 1].qtype == TSIG && rs[|rs| - 1].qclass == 0xff
  }

  /** The records from the k-th on are read one by one; a final TSIG record's offset is noted. */
  lemma {:induction false} RecordsRead(content: seq<byte>, qend: nat, rs: seq<Record>, lay: seq<Slot>, types: TypeMap,
                                       an: nat, ns: nat, answers: seq<Entry>, tsigPos: nat)
    requires qend >= 12 && RecordsAt(Img(content), qend, rs, lay)
    requires forall i :: 0 <= i < |rs| ==> Readable(rs[i], types) && PlaceOf(an, ns, i) == rs[i].place
    requires |answers| <= |rs| && LastEnd(qend, lay, |answers|) >= 12
    requires forall i :: 0 <= i < |answers| ==> EntryMatches(answers[i], rs[i])
    ensures var got := ReadRecords(content, LastEnd(qend, lay, |answers|) - 12, types, an, ns, |rs|, answers, tsigPos);
            && got.All? && |got.answers| == |rs|
            && (forall i :: 0 <= i < |rs| ==> EntryMatches(got.answers[i], rs[i]))
            && (|answers| < |rs| && EndsInTsig(rs) ==> got.tsigPos == lay[|rs| - 1].start)
    decreases |rs| - |answers|
  {
    hide RecordAt, ReadRecord, ReadRecords, RecordMatches, Readable, PlaceOf, Img, EntryMatches;
    var n := |answers|;
    if n < |rs| {
      RecordRead(content, qend, rs, lay, types, an, ns, n);
      var got := ReadRecord(content, lay[n].start - 12, types);
      ReadOne(content, lay[n].start - 12, types, an, ns, |rs|, answers, tsigPos);
      var more := answers + [Entry(got.value, PlaceOf(an, ns, n), got.pos)];
      var tsig := if got.value.qtype == TSIG && got.value.qclass == 0xff then lay[n].start else tsigPos;
      RecordsRead(content, qend, rs, lay, types, an, ns, more, tsig);
      if n + 1 == |rs| {
        ReadNone(content, LastEnd(qend, lay, n + 1) - 12, types, an, ns, |rs|, more, tsig);
      }
    } else {
      ReadNone(content, LastEnd(qend, lay, n) - 12, types, an, ns, |rs|, answers, tsigPos);
    }
  }

  /** The n-th record is read. */
  lemma RecordRead(content: seq<byte>, qend: nat, rs: seq<Record>, lay: seq<Slot>, types: TypeMap, an: nat, ns: nat,
                   n: nat)
    requires RecordsAt(Img(content), qend, rs, lay) && n < |rs| && Readable(rs[n], types)
    requires PlaceOf(an, ns, n) == rs[n].place
    requires LastEnd(qend, lay, n) >= 12
    ensures |lay| == |rs| && lay[n].start == LastEnd(qend, lay, n) && lay[n].end == LastEnd(qend, lay, n + 1) >= 12
    ensures var got := ReadRecord(content, lay[n].start - 12, types);
            && got.Got? && got.pos == lay[n].end - 12
            && got.value.qtype == rs[n].qtype && got.value.qclass == rs[n].qclass
            && EntryMatches(Entry(got.value, PlaceOf(an, ns, n), got.pos), rs[n])
  {
    hide RecordAt, ReadRecord, RecordMatches, Readable, PlaceOf, Img;
    assert lay[n].start == LastEnd(qend, lay, n);
    RecordReads(content, lay[n], rs[n], types);
    TypesMatch(ReadRecord(content, lay[n].start - 12, types).value, rs[n]);
  }

  lemma ReadOne(content: seq<byte>, pos: nat, types: TypeMap, an: nat, ns: nat, total: nat, answers: seq<Entry>,
                tsigPos: nat)
    requires |answers| < total && ReadRecord(content, pos, types).Got?
    ensures var got := ReadRecord(content, pos, types);
            ReadRecords(content, pos, types, an, ns, total, answers, tsigPos)
              == ReadRecords(content, got.pos, types, an, ns, total,
                             answers + [Entry(got.value, PlaceOf(an, ns, |answers|), got.pos)],
                             if got.value.qtype == TSIG && got.value.qclass == 0xff then pos + 12 else tsigPos)
  {
    hide ReadRecord, PlaceOf;
  }

  lemma ReadNone(content: seq<byte>, pos: nat, types: TypeMap, an: nat, ns: nat, total: nat, answers: seq<Entry>,
                 tsigPos: nat)
    requires |answers| >= total
    ensures ReadRecords(content, pos, types, an, ns, total, answers, tsigPos) == All(answers, tsigPos)
  {
  }

  lemma TypesMatch(p: ParsedRecord, r: Record)
    requires RecordMatches(p, r)
    ensures p.qtype == r.qtype && p.qclass == r.qclass
  {
  }

  /** What reading a written packet must give. */
  ghost predicate Describes(m: Message, q: Question, rs: seq<Record>)
  {
    && m.qdcount == 1 && m.ancount == Count(rs, Answer)
    && m.nscount == Count(rs, Authority) && m.arcount == Count(rs, Additional)
    && m.query == Query(Present(Labels(q.name)), q.qtype, q.qclass)
    && |m.answers| == |rs|
    && forall i :: 0 <= i < |rs| ==> EntryMatches(m.answers[i], rs[i])
  }

  lemma QuestionReads(content: seq<byte>, q: Question, qend: nat)
    requires QuestionAt(Img(content), q, qend) && ShortName(q.name)
    ensures qend >= 16 && ReadQuestions(content, 0, 1, Query([], 0, 0))
         == Got(Query(Present(Labels(q.name)), q.qtype, q.qclass), qend - 12)
  {
    var ls, img := Labels(q.name), Img(content);
    DecodeMore(img, 12, 0, HOPS);
    DecodeEnd(img, 12, 0);
    TextIsPresent(ls);
    var e, b := NameEnd(img, 12), U16(q.qtype) + U16(q.qclass);
    BlobReads(content, e - 12, b);
    Get16Inverts(q.qtype);
    Get16Inverts(q.qclass);
    assert ReadText(content, 0) == Got(Present(ls), e - 12);
    hide Img, Decode, NameEnd, Present, Labels, ReadText, U16, Get16, BytesAt, TextOf;
    assert b[0] == U16(q.qtype)[0] && b[1] == U16(q.qtype)[1] && b[2] == U16(q.qclass)[0] && b[3] == U16(q.qclass)[1];
    assert ReadQuestions(content, e - 8, 0, Query(Present(ls), q.qtype, q.qclass))
        == Got(Query(Present(ls), q.qtype, q.qclass), e - 8);
  }

  lemma HeaderField(packet: seq<byte>, k: nat, v: u16)
    requires k + 2 <= |packet| && Is16(packet, k, v)
    ensures Field16(packet, k) == v
  {
    Get16Inverts(v);
  }

  lemma HeaderFields(packet: seq<byte>, rs: seq<Record>)
    requires CountsAre(packet, rs)
    ensures |packet| >= 12 && Field16(packet, 4) == 1 && Field16(packet, 6) == Count(rs, Answer)
    ensures Field16(packet, 8) == Count(rs, Authority) && Field16(packet, 10) == Count(rs, Additional)
  {
    hide Field16, Count;
    HeaderField(packet, 4, 1);
    HeaderField(packet, 6, Count(rs, Answer));
    HeaderField(packet, 8, Count(rs, Authority));
    HeaderField(packet, 10, Count(rs, Additional));
  }

  lemma CompleteFacts(packet: seq<byte>, q: Question, qend: nat, rs: seq<Record>, lay: seq<Slot>)
    requires Complete(packet, q, qend, rs, lay)
    ensures CountsAre(packet, rs) && |packet| >= 12 && Base(packet) == Img(packet[12..])
    ensures QuestionAt(Base(packet), q, qend) && RecordsAt(Base(packet), qend, rs, lay)
    ensures LastEnd(qend, lay, |lay|) == |packet|
  {
    hide CountsAre, QuestionAt, RecordsAt, LastEnd, Count;
  }

  /** Parsing a finished packet gives back its question and its records in order, with names equal
      up to ASCII case, everything else equal, and the counts per section. */
  lemma WrittenReads(packet: seq<byte>, q: Question, qend: nat, rs: seq<Record>, lay: seq<Slot>, types: TypeMap)
    requires Complete(packet, q, qend, rs, lay) && Ordered(rs) && ShortName(q.name)
    requires forall i :: 0 <= i < |rs| ==> Readable(rs[i], types)
    requires |packet| >= 12 && (Opcode(packet) == 0 || Opcode(packet) == 4)
    ensures ParseMessage(packet, types).Parsed? && Describes(ParseMessage(packet, types).message, q, rs)
    ensures EndsInTsig(rs) ==> |lay| == |rs| && ParseMessage(packet, types).message.tsigPos == lay[|rs| - 1].start
  {
    hide Complete, CountsAre, Count, QuestionAt, RecordAt, ReadQuestions, ReadRecords, Base, Img, Field16;
    hide ShortName, Readable, EntryMatches, PlaceOf, Opcode, Present, Labels;
    CompleteFacts(packet, q, qend, rs, lay);
    HeaderFields(packet, rs);
    PlacesAgree(rs);
    var content := packet[12..];
    QuestionReads(content, q, qend);
    RecordsRead(content, qend, rs, lay, types, Count(rs, Answer), Count(rs, Authority), [], 0);
    assert LastEnd(qend, lay, 0) == qend;
  }

  /** The last record is read at its slot, by itself. */
  lemma {:induction false} LastRead(content: seq<byte>, qend: nat, rs: seq<Record>, lay: seq<Slot>, types: TypeMap,
                                    an: nat, ns: nat, answers: seq<Entry>, tsigPos: nat)
    requires qend >= 12 && RecordsAt(Img(content), qend, rs, lay)
    requires forall i :: 0 <= i < |rs| ==> Readable(rs[i], types)
    requires |answers| < |rs| && LastEnd(qend, lay, |answers|) >= 12
    ensures var got := ReadRecords(content, LastEnd(qend, lay, |answers|) - 12, types, an, ns, |rs|, answers, tsigPos);
            var last := ReadRecord(content, lay[|rs| - 1].start - 12, types);
            |got.answers| == |rs| && last.Got? && got.answers[|rs| - 1].record == last.value
    decreases |rs| - |answers|
  {
    hide RecordAt, ReadRecord, RecordMatches, Readable, PlaceOf, Img;
    var n := |answers|;
    assert lay[n].start == LastEnd(qend, lay, n);
    RecordReads(content, lay[n], rs[n], types);
    var got := ReadRecord(content, lay[n].start - 12, types);
    var e := Entry(got.value, PlaceOf(an, ns, n), got.pos);
    if n + 1 < |rs| {
      LastRead(content, qend, rs, lay, types, an, ns, answers + [e],
               if got.value.qtype == TSIG && got.value.qclass == 0xff then lay[n].start else tsigPos);
    }
  }

  lemma LastAnswer(packet: seq<byte>, q: Question, qend: nat, rs: seq<Record>, lay: seq<Slot>, types: TypeMap)
    requires Complete(packet, q, qend, rs, lay) && Ordered(rs) && ShortName(q.name) && rs != []
    requires forall i :: 0 <= i < |rs| ==> Readable(rs[i], types)
    requires |packet| >= 12 && (Opcode(packet) == 0 || Opcode(packet) == 4)
    ensures var p := ParseMessage(packet, types);
            && p.Parsed? && |p.message.answers| == |rs| == |lay| && lay[|rs| - 1].start >= 12
            && var last := ReadRecord(packet[12..], lay[|rs| - 1].start - 12, types);
            last.Got? && p.message.answers[|rs| - 1].record == last.value
  {
    hide *;
    CompleteFacts(packet, q, qend, rs, lay);
    WrittenReads(packet, q, qend, rs, lay, types);
    HeaderFields(packet, rs);
    PlacesAgree(rs);
    var content, an, ns := packet[12..], Count(rs, Answer), Count(rs, Authority);
    QuestionReads(content, q, qend);
    FirstStart(qend, lay);
    LastRead(content, qend, rs, lay, types, an, ns, [], 0);
    SlotsAfter(Img(content), qend, rs, lay, |rs| - 1);
    AnswersOf(packet, types, Query(Present(Labels(q.name)), q.qtype, q.qclass), qend - 12);
  }

  lemma FirstStart(qend: nat, lay: seq<Slot>)
    ensures LastEnd(qend, lay, 0) == qend
  {
  }

  /** The answers of a packet that parses are those of its record loop. */
  lemma AnswersOf(packet: seq<byte>, types: TypeMap, query: Query, p: nat)
    requires |packet| >= 12 && ParseMessage(packet, types).Parsed?
    requires ReadQuestions(packet[12..], 0, Field16(packet, 4), Query([], 0, 0)) == Got(query, p)
    ensures
      var an, ns, ar: nat := Field16(packet, 6), Field16(packet, 8), Field16(packet, 10);
      ParseMessage(packet, types).message.answers
        == ReadRecords(packet[12..], p, types, an, ns, an + ns + ar, [], 0).answers
  {
    hide ReadQuestions, ReadRecords, Field16, Opcode, Truncated;
  }

  lemma {:induction false} SlotsAfter(img: Image, qend: nat, rs: seq<Record>, lay: seq<Slot>, i: nat)
    requires RecordsAt(img, qend, rs, lay) && i < |rs|
    ensures |lay| == |rs| && qend <= lay[i].start < lay[i].end
  {
    hide RecordAt;
    SlotEnds(img, lay[i], rs[i]);
    if i > 0 {
      SlotsAfter(img, qend, rs, lay, i - 1);
    }
  }

  lemma SlotEnds(img: Image, at: Slot, r: Record)
    requires RecordAt(img, at, r)
    ensures at.start < at.end
  {
    var e, clen := SlotFacts(img, at, r);
  }

  // ---------------------------------------------------------------- writing a whole message

  /** Uncompressed size of the data fields from the n-th on. */
  function PlainFields(fs: seq<Field>, n: nat): (r: nat)
    requires n <= |fs| && forall i :: 0 <= i < |fs| ==> GoodField(fs[i])
    decreases |fs| - n
  {
    if n == |fs| then 0 else PlainField(fs[n]) + PlainFields(fs, n + 1)
  }

  function PlainField(f: Field): (r: nat)
    requires GoodField(f)
  {
    match f
    case Blob(d) => |d|
    case Domain(name, _) => |NameWriter.Encoded(Labels(name), 0)|
  }

  /** Uncompressed size of the records from the n-th on. */
  function PlainRecords(rs: seq<Record>, n: nat): (r: nat)
    requires n <= |rs| && forall i :: 0 <= i < |rs| ==> GoodRecord(rs[i])
    decreases |rs| - n
  {
    if n == |rs| then 0 else PlainRecord(rs[n]) + PlainRecords(rs, n + 1)
  }

  function PlainRecord(r: Record): (n: nat)
    requires GoodRecord(r)
  {
    NameSize(r.name) + 10 + PlainFields(r.rdata, 0)
  }

  /** Some data will have been written by the first n fields. */
  predicate SomeData(fs: seq<Field>, n: nat)
    requires n <= |fs|
  {
    exists i :: 0 <= i < n && (fs[i].Domain? || fs[i].data != [])
  }

  // ---------------------------------------------------------------- how much is written

  /** The draft after the first n data fields of the open record. */
  function FieldsDraft(d: Draft, fs: seq<Field>, n: nat, canonic: bool): (r: Draft)
    requires n <= |fs|
  {
    if n == 0 then d
    else
      var before := FieldsDraft(d, fs, n - 1, canonic);
      match fs[n - 1]
      case Blob(data) => before.(size := before.size + |data|)
      case Domain(name, compress) => NamedDraft(before, name, compress && !canonic)
  }

  function RecordDraft(d: Draft, qname: seq<byte>, r: Record, canonic: bool): (after: Draft)
  {
    FieldsDraft(StartedDraft(d, qname, r.name, canonic), r.rdata, |r.rdata|, canonic)
  }

  /** A packet with a question and the first n records. */
  function MessageDraft(qname: seq<byte>, rs: seq<Record>, n: nat): (d: Draft)
    requires n <= |rs|
  {
    if n == 0 then FirstDraft(qname) else RecordDraft(MessageDraft(qname, rs, n - 1), qname, rs[n - 1], false)
  }

  /** The size of that packet, names compressed. */
  function PacketSize(qname: seq<byte>, rs: seq<Record>, n: nat): (size: nat)
    requires n <= |rs|
  {
    MessageDraft(qname, rs, n).size
  }

  lemma {:induction false} FieldsGrow(d: Draft, fs: seq<Field>, n: nat, canonic: bool)
    requires n <= |fs|
    ensures FieldsDraft(d, fs, n, canonic).size >= d.size
  {
    hide NameWriter.Spelled;
    if n > 0 {
      FieldsGrow(d, fs, n - 1, canonic);
    }
  }

  /** Every record makes the packet larger. */
  lemma {:induction false} PacketGrows(qname: seq<byte>, rs: seq<Record>, n: nat, m: nat)
    requires n < m <= |rs|
    ensures PacketSize(qname, rs, n) < PacketSize(qname, rs, m)
  {
    hide FieldsDraft, OwnerSize;
    var r, before := rs[m - 1], MessageDraft(qname, rs, m - 1);
    FieldsGrow(StartedDraft(before, qname, r.name, false), r.rdata, |r.rdata|, false);
    if n < m - 1 {
      PacketGrows(qname, rs, n, m - 1);
    }
  }

  lemma MessageDraftStep(qname: seq<byte>, rs: seq<Record>, n: nat)
    requires n < |rs|
    ensures MessageDraft(qname, rs, n + 1) == RecordDraft(MessageDraft(qname, rs, n), qname, rs[n], false)
  {
    hide RecordDraft;
  }

  /** Writes the data fields of the record that has been started. */
  method WriteFields(pw: DNSPacketWriter, r: Record)
    requires pw.Valid() && pw.Open() && pw.record == [] && GoodRecord(r) && pw.current == r.(rdata := [])
    modifies pw`record, pw`current, pw`fieldEnds, pw`lmap, pw`lower
    ensures pw.Valid() && pw.current == r
    ensures pw.Size() <= old(pw.Size()) + PlainFields(r.rdata, 0)
    ensures SomeData(r.rdata, |r.rdata|) ==> pw.record != []
    ensures pw.Drafted() == FieldsDraft(old(pw.Drafted()), r.rdata, |r.rdata|, pw.canonic)
  {
    hide Labels, GoodName, NameWriter.Encoded, DNSPacketWriter.Valid, NamedDraft;
    var n := 0;
    ghost var d := pw.Drafted();
    while n < |r.rdata|
      invariant n <= |r.rdata| && pw.Valid() && pw.current == r.(rdata := r.rdata[..n])
      invariant |pw.record| + PlainFields(r.rdata, n) <= PlainFields(r.rdata, 0)
      invariant SomeData(r.rdata, n) ==> pw.record != []
      invariant pw.Drafted() == FieldsDraft(d, r.rdata, n, pw.canonic)
    {
      match r.rdata[n] {
        case Blob(data) => pw.XfrBlob(data);
        case Domain(name, compress) => pw.XfrLabel(name, compress);
      }
      assert r.rdata[..n + 1] == r.rdata[..n] + [r.rdata[n]];
      n := n + 1;
    }
    assert r.rdata[..n] == r.rdata;
  }

  lemma CommittedSize(content: seq<byte>, record: seq<byte>, r: Record)
    requires |content| >= 12 && |record| < 0x10000
    ensures |Committed(content, record, r)| == |content| + 10 + |record|
  {
    hide Bump, RecordHeader;
  }

  lemma ValidFacts(pw: DNSPacketWriter)
    requires pw.Valid()
    ensures pw.Wire() && |pw.content| >= 12
  {
    hide Complete, PendingAt, NameWriter.MapOk;
  }

  /** One record: the record before it is committed, this one started and its data written. */
  method WriteRecord(pw: DNSPacketWriter, r: Record) returns (ghost before: nat)
    requires pw.Valid() && GoodRecord(r) && GoodName(r.name)
    requires if pw.Open() then pw.record != [] && pw.Size() <= 65535 else |pw.content| <= 65535
    modifies pw
    ensures pw.Valid() && pw.Open() && pw.current == r
    ensures pw.records == old(pw.records) + (if old(pw.Open()) then [old(pw.current)] else [])
    ensures before == old(pw.Bulk()) && |pw.Finished()| == before
    ensures pw.Size() <= before + PlainRecord(r)
    ensures SomeData(r.rdata, |r.rdata|) ==> pw.record != []
    ensures |old(pw.content)| >= 12 && |pw.content| >= 12 && pw.content[..6] == old(pw.content[..6])
    ensures pw.canonic == old(pw.canonic)
    ensures pw.Drafted() == RecordDraft(old(pw.Drafted()), pw.question.name, r, pw.canonic)
  {
    hide Labels, GoodName, NameWriter.Encoded, DNSPacketWriter.Valid, DNSPacketWriter.Wire, SomeData, NameSize,
         PlainFields, Committed, StartedDraft, FieldsDraft;
    before := pw.Bulk();
    ValidFacts(pw);
    if pw.Open() {
      CommittedSize(pw.content, pw.record, pw.current);
    }
    pw.StartRecord(r.name, r.qtype, r.ttl, r.qclass, r.place);
    WriteFields(pw, r);
  }

  /** A message as a list of startRecord/xfr calls closed by one commit. Only the last record's data
      may be empty: an empty record would be lost at the next startRecord. */
  ghost predicate Writable(q: Question, rs: seq<Record>)
  {
    && GoodName(q.name)
    && (forall i :: 0 <= i < |rs| ==> GoodRecord(rs[i]))
    && forall i :: 0 <= i < |rs| - 1 ==> SomeData(rs[i].rdata, |rs[i].rdata|)
  }

  /** Uncompressed size of the header and the question. */
  function PlainQuestion(q: Question): (n: nat)
    requires GoodName(q.name)
  {
    16 + |NameWriter.Encoded(Labels(q.name), 0)|
  }

  lemma {:induction false} FieldsShort(d: Draft, fs: seq<Field>, n: nat, canonic: bool)
    requires n <= |fs| && forall i :: 0 <= i < |fs| ==> GoodField(fs[i])
    ensures FieldsDraft(d, fs, n, canonic).size + PlainFields(fs, n) <= d.size + PlainFields(fs, 0)
  {
    hide NameWriter.Spelled, NameWriter.Encoded, GoodName, Labels;
    if n > 0 {
      FieldsShort(d, fs, n - 1, canonic);
      match fs[n - 1]
      case Blob(_) =>
      case Domain(name, compress) =>
        var before := FieldsDraft(d, fs, n - 1, canonic);
        NameWriter.SpelledShort(before.lmap, before.size, name, compress && !canonic);
    }
  }

  lemma RecordShort(d: Draft, qname: seq<byte>, r: Record, canonic: bool)
    requires GoodRecord(r)
    ensures RecordDraft(d, qname, r, canonic).size <= d.size + PlainRecord(r)
  {
    hide NameWriter.Spelled, NameWriter.Encoded, GoodName, Labels, FieldsDraft, PlainFields, NameSize, SameText;
    NameSizeBounds(r.name);
    NameWriter.SpelledShort(d.lmap, d.size, r.name, !canonic);
    FieldsShort(StartedDraft(d, qname, r.name, canonic), r.rdata, |r.rdata|, canonic);
  }

  /** A packet is never larger than its uncompressed size. */
  lemma {:induction false} PacketShort(q: Question, rs: seq<Record>, n: nat)
    requires n <= |rs| && GoodName(q.name) && forall i :: 0 <= i < |rs| ==> GoodRecord(rs[i])
    ensures PacketSize(q.name, rs, n) + PlainRecords(rs, n) <= PlainQuestion(q) + PlainRecords(rs, 0)
  {
    hide NameWriter.Spelled, NameWriter.Encoded, GoodName, Labels, RecordDraft, PlainRecord, GoodRecord;
    if n > 0 {
      PacketShort(q, rs, n - 1);
      RecordShort(MessageDraft(q.name, rs, n - 1), q.name, rs[n - 1], false);
    } else {
      NameWriter.SpelledShort([], 12, q.name, false);
    }
  }

  /** Runs the calls for the records on a writer that holds a question only, and commits the last; it gives
      up when the packet is larger than a message can be. */
  method WriteRecords(pw: DNSPacketWriter, rs: seq<Record>) returns (ok: bool)
    requires pw.Valid() && !pw.Open() && pw.records == [] && !pw.canonic && |pw.content| <= 65535
    requires pw.Drafted() == FirstDraft(pw.question.name) && Writable(pw.question, rs)
    modifies pw
    ensures ok <==> PacketSize(pw.question.name, rs, |rs|) <= 65535
    ensures ok ==> pw.Valid() && !pw.Open() && !pw.canonic && pw.records == rs
    ensures ok ==> |pw.content| == PacketSize(pw.question.name, rs, |rs|)
    ensures |old(pw.content)| >= 12 && (ok ==> |pw.content| >= 12 && pw.content[..6] == old(pw.content[..6]))
  {
    hide Labels, GoodName, NameWriter.Encoded, DNSPacketWriter.Valid, DNSPacketWriter.Wire, Complete, SomeData,
         NameSize,
         PlainRecord, Committed, RecordDraft, FirstDraft;
    var n := 0;
    ghost var qname := pw.question.name;
    ValidFacts(pw);
    while n < |rs|
      invariant n <= |rs| && pw.Valid() && !pw.canonic
      invariant |pw.content| >= 12 && pw.content[..6] == old(pw.content[..6]) && pw.Bulk() <= 65535
      invariant if n == 0 then !pw.Open() && pw.records == []
                else pw.Open() && pw.records == rs[..n - 1] && pw.current == rs[n - 1]
      invariant pw.Open() && n < |rs| ==> pw.record != []
      invariant pw.Drafted() == MessageDraft(qname, rs, n)
    {
      assert n > 0 ==> rs[..n] == rs[..n - 1] + [rs[n - 1]];
      ghost var before := WriteRecord(pw, rs[n]);
      n := n + 1;
      MessageDraftStep(qname, rs, n - 1);
      if pw.Size() > 65535 {
        if n < |rs| {
          PacketGrows(qname, rs, n, |rs|);
        }
        return false;
      }
    }
    if rs != [] {
      pw.Commit();
      assert rs == rs[..n - 1] + [rs[n - 1]];
    }
    ok := true;
  }

  /** Writes a question and records with a fresh writer. */
  method WriteMessage(q: Question, rs: seq<Record>, opcode: nat)
    returns (ok: bool, packet: seq<byte>, ghost qend: nat, ghost lay: seq<Slot>, ghost frame: Image)
    requires Writable(q, rs) && PlainQuestion(q) <= 65535
    ensures ok <==> PacketSize(q.name, rs, |rs|) <= 65535
    ensures ok ==> Complete(packet, q, qend, rs, lay) && |packet| == PacketSize(q.name, rs, |rs|)
    ensures ok ==> |packet| >= 12 && Firm(frame, packet, q, qend, rs, lay) && Concise(Base(packet), rs, lay)
    ensures ok ==> packet[..6] == InitialHeader(opcode)[..6]
  {
    hide Labels, GoodName, NameWriter.Encoded, DNSPacketWriter.Valid, DNSPacketWriter.Wire, Complete, Firm, FirstDraft,
         PacketSize, Concise;
    var pw := new DNSPacketWriter(q.name, q.qtype, q.qclass, opcode);
    assert pw.content[..6] == InitialHeader(opcode)[..6];
    ok := WriteRecords(pw, rs);
    packet, qend, lay, frame := pw.content, pw.questionEnd, pw.layout, pw.frame;
    if ok {
      ValidComplete(pw);
    }
  }

  lemma ValidComplete(pw: DNSPacketWriter)
    requires pw.Valid() && !pw.Open()
    ensures |pw.content| >= 12 && (!pw.canonic ==> Concise(Base(pw.content), pw.records, pw.layout))
    ensures Complete(pw.content, pw.question, pw.questionEnd, pw.records, pw.layout)
    ensures Firm(pw.frame, pw.content, pw.question, pw.questionEnd, pw.records, pw.layout)
  {
    hide Complete, Firm, Concise;
    if !pw.canonic {
      ConcisePacket(pw.frame, pw.content, pw.question, pw.questionEnd, pw.records, pw.layout);
    }
  }

  /** Writing any question and records that fit a message, and parsing the bytes, gives them back. */
  method WriteThenParse(q: Question, rs: seq<Record>, opcode: nat, types: TypeMap) returns (p: Option<Parse>)
    requires Writable(q, rs) && PlainQuestion(q) <= 65535
    requires Ordered(rs) && ShortName(q.name) && (opcode == 0 || opcode == 4)
    requires forall i :: 0 <= i < |rs| ==> Readable(rs[i], types)
    ensures p.Some? <==> PacketSize(q.name, rs, |rs|) <= 65535
    ensures p.Some? ==> p.value.Parsed? && Describes(p.value.message, q, rs)
  {
    hide Complete, Firm, Writable, Describes, Readable, ShortName, Ordered, PacketSize;
    var ok, packet;
    ghost var qend, lay, frame;
    ok, packet, qend, lay, frame := WriteMessage(q, rs, opcode);
    if !ok {
      return None;
    }
    assert packet[2] == packet[..6][2] == InitialHeader(opcode)[..6][2] == opcode * 8;
    var parse := Init(packet, types);
    WrittenReads(packet, q, qend, rs, lay, types);
    p := Some(parse);
  }
}
