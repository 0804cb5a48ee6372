/** A packet that was cut short on its way: what MOADNSParser::init makes of it. */
module CutMessage {
  import opened Bytes
  import opened Names
  import opened Wire
  import opened MessageReader
  import opened RecordReader
  import opened PacketWriter
  import opened MessageParser

  // ---- reading a prefix gives the same, or runs out ----

  lemma {:induction false} DecodePrefix(a: Image, b: Image, pos: nat, hops: nat)
    requires a <= b
    ensures Decode(a, pos, hops) == Decode(b, pos, hops) || Decode(a, pos, hops) == OutOfRange
    ensures NameEnd(a, pos) == NameEnd(b, pos) || NameEnd(a, pos) < 0
    decreases hops, Room(a, pos)
  {
    if pos < |a| && a[pos] > 0 {
      if a[pos] >= 0xc0 {
        if pos + 1 < |a| && a[pos + 1] >= 0 && hops > 0 {
          DecodePrefix(a, b, Target(a, pos), hops - 1);
        }
      } else {
        DecodePrefix(a, b, pos + 1 + a[pos], hops);
        LabelPrefix(a, b, pos, hops);
      }
    }
  }

  lemma LabelPrefix(a: Image, b: Image, pos: nat, hops: nat)
    requires a <= b && pos < |a| && 0 < a[pos] < 0xc0
    requires
      var next := pos + 1 + a[pos];
      && (Decode(a, next, hops) == Decode(b, next, hops) || Decode(a, next, hops) == OutOfRange)
      && (NameEnd(a, next) == NameEnd(b, next) || NameEnd(a, next) < 0)
    ensures Decode(a, pos, hops) == Decode(b, pos, hops) || Decode(a, pos, hops) == OutOfRange
    ensures NameEnd(a, pos) == NameEnd(b, pos) || NameEnd(a, pos) < 0
  {
    var next := pos + 1 + a[pos];
    if Solid(a, pos + 1, next) {
      assert a[pos + 1..next] == b[pos + 1..next];
    }
  }

  /** A name without pointers is whole in a prefix that holds its end. */
  lemma {:induction false} DecodeWhole(a: Image, b: Image, pos: nat)
    requires a <= b && Decode(b, pos, 0).Name? && NameEnd(b, pos) <= |a|
    ensures Decode(a, pos, 0) == Decode(b, pos, 0) && NameEnd(a, pos) == NameEnd(b, pos)
    decreases Room(b, pos)
  {
    DecodeEnd(b, pos, 0);
    if b[pos] != 0 {
      var next := pos + 1 + b[pos];
      DecodeEnd(b, next, 0);
      DecodeWhole(a, b, next);
      assert a[pos + 1..next] == b[pos + 1..next];
    }
  }

  lemma ImgPrefix(content: seq<byte>, m: nat)
    requires m <= |content|
    ensures Img(content[..m]) <= Img(content)
  {
  }

  lemma TextPrefix(content: seq<byte>, m: nat, pos: nat)
    requires m <= |content|
    ensures
      var a := ReadText(content[..m], pos);
      (a == ReadText(content, pos) || a == Fail(Beyond)) && (a.Got? ==> pos < a.pos <= m)
  {
    var cut := content[..m];
    ImgPrefix(content, m);
    DecodePrefix(Img(cut), Img(content), 12 + pos, HOPS);
    if Decode(Img(cut), 12 + pos, HOPS).Name? {
      DecodeEnd(Img(cut), 12 + pos, HOPS);
    }
    hide Decode, NameEnd, Img, Join;
    assert |Img(cut)| == 12 + m;
  }

  lemma TakePrefix(content: seq<byte>, m: nat, pos: nat, n: nat)
    requires m <= |content| && pos <= m
    ensures
      var a := Take(content[..m], pos, n);
      (a == Take(content, pos, n) || a == Fail(Beyond)) && (a.Got? ==> pos <= a.pos <= m)
  {
    if n > 0 && pos + n <= m {
      assert content[..m][pos..pos + n] == content[pos..pos + n];
    }
  }

  lemma CountedPrefix(content: seq<byte>, m: nat, pos: nat, w: nat)
    requires m <= |content| && (w == 1 || w == 2)
    ensures
      var a := ReadCounted(content[..m], pos, w);
      (a == ReadCounted(content, pos, w) || a == Fail(Beyond)) && (a.Got? ==> pos <= a.pos <= m)
  {
    hide Get16;
    var cut := content[..m];
    if pos + w <= m {
      var n: int := if w == 1 then cut[pos] else Get16(cut[pos], cut[pos + 1]);
      if pos + w + n <= m {
        assert cut[pos..pos + w + n] == content[pos..pos + w + n];
      }
    }
  }

  lemma RestPrefix(content: seq<byte>, m: nat, pos: nat, start: nat, clen: u16)
    requires start <= pos <= m <= |content|
    ensures
      var a := ReadRest(content[..m], pos, start, clen);
      (a == ReadRest(content, pos, start, clen) || a == Fail(Beyond)) && (a.Got? ==> start <= a.pos <= m)
  {
    if pos < start + clen <= m {
      assert content[..m][pos..start + clen] == content[pos..start + clen];
    }
  }

  lemma ItemPrefix(content: seq<byte>, m: nat, pos: nat, shape: Shape, start: nat, clen: u16)
    requires start <= pos <= m <= |content|
    ensures
      var a := ReadItem(content[..m], pos, shape, start, clen);
      (a == ReadItem(content, pos, shape, start, clen) || a == Fail(Beyond)) && (a.Got? ==> start <= a.pos <= m)
  {
    hide Take, ReadCounted, ReadRest, ReadText;
    match shape
    case Fixed(n) => TakePrefix(content, m, pos, n);
    case Counted8 => CountedPrefix(content, m, pos, 1);
    case Counted16 => CountedPrefix(content, m, pos, 2);
    case Rest => RestPrefix(content, m, pos, start, clen);
    case DomainName => TextPrefix(content, m, pos);
  }

  lemma {:induction false} ItemsPrefix(content: seq<byte>, m: nat, pos: nat, shapes: seq<Shape>, items: seq<Item>,
                                       start: nat, clen: u16)
    requires start <= pos <= m <= |content| && |items| <= |shapes|
    ensures
      var a := ReadItems(content[..m], pos, shapes, items, start, clen);
      (a == ReadItems(content, pos, shapes, items, start, clen) || a == Fail(Beyond)) && (a.Got? ==> a.pos <= m)
    decreases |shapes| - |items|
  {
    hide ReadItem;
    if |items| < |shapes| {
      ItemPrefix(content, m, pos, shapes[|items|], start, clen);
      var i := ReadItem(content[..m], pos, shapes[|items|], start, clen);
      if i.Got? {
        ItemsPrefix(content, m, i.pos, shapes, items + [i.value], start, clen);
      }
    }
  }

  lemma RecordPrefix(content: seq<byte>, m: nat, pos: nat, types: TypeMap)
    requires m <= |content|
    ensures
      var a := ReadRecord(content[..m], pos, types);
      (a == ReadRecord(content, pos, types) || a == Fail(Beyond)) && (a.Got? ==> a.pos <= m)
  {
    hide ReadText, Take, ReadItems, HeaderOf, ShapesOf;
    TextPrefix(content, m, pos);
    var name := ReadText(content[..m], pos);
    if name.Got? {
      TakePrefix(content, m, name.pos, 10);
      var h := Take(content[..m], name.pos, 10);
      if h.Got? {
        var hd := HeaderOf(h.value);
        ItemsPrefix(content, m, h.pos, ShapesOf(types, hd.qtype, hd.qclass, hd.clen), [], h.pos, hd.clen);
      }
    }
  }

  // ---- what stands in the cut packet ----

  lemma BasePrefix(packet: seq<byte>, n: nat)
    requires 12 <= n <= |packet|
    ensures Base(packet[..n]) <= Base(packet) && |Base(packet[..n])| == n && |Base(packet)| == |packet|
    ensures Base(packet[..n]) == Img(packet[..n][12..]) && packet[..n][12..] == packet[12..][..n - 12]
  {
    assert packet[..n][12..] == packet[12..n] == packet[12..][..n - 12];
  }

  lemma StandsParts(own: Image, at: Slot, r: Record) returns (e: nat)
    requires StandsAt(own, at, r)
    ensures NamedAt(own, at.start, Labels(r.name), Budget(Labels(r.name))) && NameEnd(own, at.start) == e
    ensures e + 10 <= at.end <= |own| && FieldsAt(own, e + 10, r.rdata, at.fends)
  {
    hide NamedAt, Labels, FieldsAt, Budget, NameEnd;
    e := NameEnd(own, at.start);
  }

  lemma SlotFold(img: Image, at: Slot, r: Record, e: nat)
    requires GoodRecord(r) && NamedAt(img, at.start, Labels(r.name), Budget(Labels(r.name)))
    requires NameEnd(img, at.start) == e && e + 10 <= at.end <= |img| && at.end - e - 10 < 0x10000
    requires BytesAt(img, e, RecordHeader(r, at.end - e - 10)) && FieldsAt(img, e + 10, r.rdata, at.fends)
    requires StartOf(e + 10, at.fends, |at.fends|) == at.end
    ensures RecordAt(img, at, r)
  {
    hide NamedAt, Labels, FieldsAt, Budget, NameEnd, GoodRecord, BytesAt, RecordHeader;
  }

  lemma NamedGrows(a: Image, b: Image, pos: nat, ls: seq<seq<byte>>, hops: nat)
    requires Agree(a, b) && NamedAt(a, pos, ls, hops)
    ensures NamedAt(b, pos, ls, hops) && NameEnd(b, pos) == NameEnd(a, pos)
  {
    hide Decode, NameEnd, Agree;
    DecodeMono(a, b, pos, hops);
  }

  lemma SlotGood(img: Image, at: Slot, r: Record)
    requires RecordAt(img, at, r)
    ensures GoodRecord(r)
  {
  }

  lemma AgreeOwn(frame: Image, whole: Image, cut: Image, end: nat)
    requires Agree(frame, whole) && cut <= whole && end <= |cut| && end <= |frame|
    ensures Agree(frame[..end], whole) && Agree(frame[..end], cut)
  {
  }

  /** A whole record of a firm packet stands in the packet cut behind it. */
  lemma SlotInCut(frame: Image, packet: seq<byte>, at: Slot, r: Record, n: nat)
    requires |packet| >= 12 && |frame| == |packet| && Agree(frame, Base(packet)) && 12 <= n <= |packet| && at.end <= n
    requires StandsAt(frame[..at.end], at, r) && RecordAt(Base(packet), at, r)
    ensures RecordAt(Base(packet[..n]), at, r)
  {
    hide *;
    var own, whole, cut := frame[..at.end], Base(packet), Base(packet[..n]);
    BasePrefix(packet, n);
    AgreeOwn(frame, whole, cut, at.end);
    var e := StandsParts(own, at, r);
    SlotGood(whole, at, r);
    var e', clen := SlotFacts(whole, at, r);
    NamedGrows(own, whole, at.start, Labels(r.name), Budget(Labels(r.name)));
    NamedGrows(own, cut, at.start, Labels(r.name), Budget(Labels(r.name)));
    FieldsMono(own, cut, e + 10, r.rdata, at.fends);
    BytesCut(whole, cut, e, RecordHeader(r, clen));
    SlotFold(cut, at, r, e);
  }

  lemma BytesCut(whole: Image, cut: Image, pos: nat, s: seq<byte>)
    requires cut <= whole && BytesAt(whole, pos, s) && pos + |s| <= |cut|
    ensures BytesAt(cut, pos, s)
  {
    forall i | 0 <= i < |s|
      ensures cut[pos + i] == s[i]
    {
      assert whole[pos + i] == s[i];
    }
  }

  lemma QuestionInCut(packet: seq<byte>, q: Question, qend: nat, n: nat)
    requires 12 <= n <= |packet| && qend <= n && QuestionAt(Base(packet), q, qend)
    ensures QuestionAt(Base(packet[..n]), q, qend)
  {
    BasePrefix(packet, n);
    hide Decode, Base, GoodName, Labels, U16;
    DecodeWhole(Base(packet[..n]), Base(packet), 12);
    BytesCut(Base(packet), Base(packet[..n]), qend - 4, U16(q.qtype) + U16(q.qclass));
  }

  lemma {:induction false} EndsGrow(img: Image, qend: nat, rs: seq<Record>, lay: seq<Slot>, i: nat, k: nat)
    requires RecordsAt(img, qend, rs, lay) && i <= k <= |rs|
    ensures |lay| == |rs| && LastEnd(qend, lay, i) <= LastEnd(qend, lay, k)
  {
    hide RecordAt;
    if i < k {
      EndsGrow(img, qend, rs, lay, i, k - 1);
      SlotEnds(img, lay[k - 1], rs[k - 1]);
    }
  }

  /** The first k records, which are whole. */
  lemma RecordsInCut(frame: Image, packet: seq<byte>, q: Question, qend: nat, rs: seq<Record>, lay: seq<Slot>, n: nat,
                     k: nat)
    requires |packet| >= 12 && Firm(frame, packet, q, qend, rs, lay) && RecordsAt(Base(packet), qend, rs, lay)
    requires 12 <= n <= |packet| && k <= |rs| == |lay| && LastEnd(qend, lay, k) <= n
    ensures RecordsAt(Base(packet[..n]), qend, rs[..k], lay[..k])
  {
    hide RecordAt, StandsAt, Base, QuestionAt, Agree;
    forall i | 0 <= i < k
      ensures RecordAt(Base(packet[..n]), lay[..k][i], rs[..k][i])
      ensures lay[..k][i].start == LastEnd(qend, lay[..k], i)
    {
      StandsWhole(frame, rs, lay, i);
      EndsGrow(Base(packet), qend, rs, lay, i + 1, k);
      SlotInCut(frame, packet, lay[i], rs[i], n);
      assert LastEnd(qend, lay[..k], i) == LastEnd(qend, lay, i);
    }
  }

  // ---- the records of the cut packet ----

  /** The next record is not whole: reading it runs out. */
  lemma NextRunsOut(packet: seq<byte>, qend: nat, rs: seq<Record>, lay: seq<Slot>, types: TypeMap, n: nat, k: nat)
    requires 12 <= n < |packet| && RecordsAt(Base(packet), qend, rs, lay) && k < |rs| && Readable(rs[k], types)
    requires 12 <= LastEnd(qend, lay, k) <= n < lay[k].end
    ensures ReadRecord(packet[..n][12..], LastEnd(qend, lay, k) - 12, types) == Fail(Beyond)
  {
    hide *;
    BasePrefix(packet, n);
    WholeImage(packet);
    SlotThere(Base(packet), qend, rs, lay, k);
    RecordReads(packet[12..], lay[k], rs[k], types);
    RecordPrefix(packet[12..], n - 12, lay[k].start - 12, types);
  }

  lemma SlotThere(img: Image, qend: nat, rs: seq<Record>, lay: seq<Slot>, k: nat)
    requires RecordsAt(img, qend, rs, lay) && k < |rs|
    ensures |lay| == |rs| && lay[k].start == LastEnd(qend, lay, k) && RecordAt(img, lay[k], rs[k])
  {
    hide RecordAt;
  }

  lemma WholeImage(packet: seq<byte>)
    requires |packet| >= 12
    ensures Base(packet) == Img(packet[12..])
  {
  }

  /** The record loop stops at the first record that is not whole. */
  lemma {:induction false} LoopStops(content: seq<byte>, qend: nat, rs: seq<Record>, lay: seq<Slot>, types: TypeMap,
                                     an: nat, ns: nat, k: nat, total: nat, answers: seq<Entry>, tsigPos: nat)
    requires k == |rs| < total && RecordsAt(Img(content), qend, rs, lay) && qend >= 12
    requires forall i :: 0 <= i < k ==> Readable(rs[i], types) && PlaceOf(an, ns, i) == rs[i].place
    requires |answers| <= k && LastEnd(qend, lay, |answers|) >= 12
    requires forall i :: 0 <= i < |answers| ==> EntryMatches(answers[i], rs[i])
    requires LastEnd(qend, lay, k) >= 12 && ReadRecord(content, LastEnd(qend, lay, k) - 12, types) == Fail(Beyond)
    ensures var got := ReadRecords(content, LastEnd(qend, lay, |answers|) - 12, types, an, ns, total, answers, tsigPos);
            && got.Stopped? && got.failure == Beyond && |got.answers| == k
            && (forall i :: 0 <= i < k ==> EntryMatches(got.answers[i], rs[i]))
    decreases k - |answers|
  {
    hide *;
    RecordsSize(Img(content), qend, rs, lay);
    var n := |answers|;
    if n < k {
      RecordRead(content, qend, rs, lay, types, an, ns, n);
      var got := ReadRecord(content, lay[n].start - 12, types);
      ReadOne(content, lay[n].start - 12, types, an, ns, total, answers, tsigPos);
      var more := answers + [Entry(got.value, PlaceOf(an, ns, n), got.pos)];
      var tsig := if got.value.qtype == TSIG && got.value.qclass == 0xff then lay[n].start else tsigPos;
      LoopStops(content, qend, rs, lay, types, an, ns, k, total, more, tsig);
    } else {
      StopHere(content, LastEnd(qend, lay, k) - 12, types, an, ns, total, answers, tsigPos);
    }
  }

  lemma RecordsSize(img: Image, qend: nat, rs: seq<Record>, lay: seq<Slot>)
    requires RecordsAt(img, qend, rs, lay)
    ensures |lay| == |rs|
  {
  }

  lemma StopHere(content: seq<byte>, pos: nat, types: TypeMap, an: nat, ns: nat, total: nat, answers: seq<Entry>,
                 tsigPos: nat)
    requires |answers| < total && ReadRecord(content, pos, types) == Fail(Beyond)
    ensures ReadRecords(content, pos, types, an, ns, total, answers, tsigPos) == Stopped(answers, tsigPos, Beyond)
  {
    hide ReadRecord;
  }

  /** The counts of the first k records of a packet in natural order. */
  lemma {:induction false} CountsOfFront(rs: seq<Record>, k: nat)
    requires Ordered(rs) && k <= |rs|
    ensures
      var an, ns := Count(rs, Answer), Count(rs, Authority);
      && Count(rs[..k], Answer) == (if k < an then k else an)
      && Count(rs[..k], Authority) == (if k < an then 0 else if k < an + ns then k - an else ns)
      && Count(rs[..k], Additional) == (if k < an + ns then 0 else k - an - ns)
  {
    hide *;
    if k == 0 {
      CountNone(rs[..0], Answer);
      CountNone(rs[..0], Authority);
      CountNone(rs[..0], Additional);
    } else {
      CountsOfFront(rs, k - 1);
      PlacesAgree(rs);
      assert rs[..k][..k - 1] == rs[..k - 1] && rs[..k][k - 1] == rs[k - 1];
      CountUnfold(rs[..k], Answer);
      CountUnfold(rs[..k], Authority);
      CountUnfold(rs[..k], Additional);
      PlaceIs(Count(rs, Answer), Count(rs, Authority), k - 1);
    }
  }

  lemma PlaceIs(an: nat, ns: nat, n: nat)
    ensures PlaceOf(an, ns, n) == if n < an then Answer else if n < an + ns then Authority else Additional
  {
  }

  /** Where a packet was cut: behind its first k records, within the next. */
  lemma {:induction false} CutAfter(qend: nat, lay: seq<Slot>, n: nat, m: nat) returns (k: nat)
    requires m <= |lay| && qend <= n < LastEnd(qend, lay, m)
    ensures k < m && LastEnd(qend, lay, k) <= n < lay[k].end
    decreases m
  {
    if LastEnd(qend, lay, m - 1) <= n {
      k := m - 1;
    } else {
      k := CutAfter(qend, lay, n, m - 1);
    }
  }

  lemma DescribesFront(packet: seq<byte>, cut: seq<byte>, q: Question, rs: seq<Record>, k: nat, r: Records,
                       query: Query)
    requires CountsAre(packet, rs) && |cut| >= 12 && cut[..12] == packet[..12] && Ordered(rs) && k < |rs|
    requires query == Query(Present(Labels(q.name)), q.qtype, q.qclass)
    requires r.Stopped? && r.failure == Beyond && |r.answers| == k
    requires forall i :: 0 <= i < k ==> EntryMatches(r.answers[i], rs[i])
    ensures
      var p := Conclude(cut, query, r);
      if Truncated(packet) then p.Parsed? && Describes(p.message, q, rs[..k]) else p.Rejected?
  {
    HeaderFields(packet, rs);
    SameHead(packet, cut);
    CountsOfFront(rs, k);
    PlacesAgree(rs);
    hide CountsAre, Count, EntryMatches, Field16, Truncated, Ordered, PlaceOf, Present, Labels;
  }

  lemma SameHead(packet: seq<byte>, cut: seq<byte>)
    requires |packet| >= 12 && |cut| >= 12 && cut[..12] == packet[..12]
    ensures Field16(cut, 4) == Field16(packet, 4) && Field16(cut, 6) == Field16(packet, 6)
    ensures Field16(cut, 8) == Field16(packet, 8) && Field16(cut, 10) == Field16(packet, 10)
    ensures Truncated(cut) == Truncated(packet) && Opcode(cut) == Opcode(packet)
  {
    assert forall i :: 0 <= i < 12 ==> cut[i] == cut[..12][i] == packet[..12][i] == packet[i];
  }

  /** Reading the one question of a cut packet. */
  lemma QuestionCut(packet: seq<byte>, q: Question, qend: nat, n: nat)
    requires 12 <= n <= |packet| && QuestionAt(Base(packet), q, qend) && ShortName(q.name)
    ensures
      var r := ReadQuestions(packet[..n][12..], 0, 1, Query([], 0, 0));
      if qend <= n then r == Got(Query(Present(Labels(q.name)), q.qtype, q.qclass), qend - 12) else r.Fail?
  {
    hide *;
    BasePrefix(packet, n);
    if qend <= n {
      QuestionInCut(packet, q, qend, n);
      QuestionReads(packet[..n][12..], q, qend);
    } else {
      WholeImage(packet);
      QuestionReads(packet[12..], q, qend);
      OnePrefix(packet[12..], n - 12);
    }
  }

  /** One question read from a prefix ends within it. */
  lemma OnePrefix(content: seq<byte>, m: nat)
    requires m <= |content|
    ensures
      var a := ReadQuestions(content[..m], 0, 1, Query([], 0, 0));
      (a == ReadQuestions(content, 0, 1, Query([], 0, 0)) || a == Fail(Beyond)) && (a.Got? ==> a.pos <= m)
  {
    hide ReadText, Take, Get16;
    TextPrefix(content, m, 0);
    var name := ReadText(content[..m], 0);
    if name.Got? {
      TakePrefix(content, m, name.pos, 4);
    }
  }

  /** A written packet cut at any place. Without its question it is rejected. Cut within a record it reads as a
      packet of the records that are whole, counts and all, if it is marked as truncated; else it is rejected. */
  lemma CutReads(frame: Image, packet: seq<byte>, q: Question, qend: nat, rs: seq<Record>, lay: seq<Slot>,
                 types: TypeMap, n: nat)
    returns (k: nat)
    requires Complete(packet, q, qend, rs, lay) && Firm(frame, packet, q, qend, rs, lay)
    requires Ordered(rs) && ShortName(q.name) && forall i :: 0 <= i < |rs| ==> Readable(rs[i], types)
    requires 12 <= n < |packet| && (Opcode(packet) == 0 || Opcode(packet) == 4)
    ensures n < qend ==> ParseMessage(packet[..n], types).Rejected?
    ensures n >= qend ==>
      && k < |rs| == |lay| && LastEnd(qend, lay, k) <= n < lay[k].end
      && var p := ParseMessage(packet[..n], types);
         if Truncated(packet) then p.Parsed? && Describes(p.message, q, rs[..k]) else p.Rejected?
  {
    hide *;
    CompleteParts(packet, q, qend, rs, lay);
    var cut := packet[..n];
    assert cut[..12] == packet[..12];
    SameHead(packet, cut);
    HeaderFields(packet, rs);
    QuestionCut(packet, q, qend, n);
    k := 0;
    if n < qend {
      RejectsQuestion(cut, types);
    } else {
      k := CutRecords(frame, packet, q, qend, rs, lay, types, n);
      ParseIs(cut, types, Query(Present(Labels(q.name)), q.qtype, q.qclass), qend - 12);
    }
  }

  lemma RejectsQuestion(cut: seq<byte>, types: TypeMap)
    requires |cut| >= 12 && Field16(cut, 4) == 1 && ReadQuestions(cut[12..], 0, 1, Query([], 0, 0)).Fail?
    ensures ParseMessage(cut, types).Rejected?
  {
    hide ReadQuestions, Field16, Opcode;
  }

  lemma ParseIs(cut: seq<byte>, types: TypeMap, query: Query, p: nat)
    requires |cut| >= 12 && Field16(cut, 4) == 1 && (Opcode(cut) == 0 || Opcode(cut) == 4)
    requires ReadQuestions(cut[12..], 0, 1, Query([], 0, 0)) == Got(query, p)
    ensures
      var an, ns, ar: nat := Field16(cut, 6), Field16(cut, 8), Field16(cut, 10);
      ParseMessage(cut, types) == Conclude(cut, query, ReadRecords(cut[12..], p, types, an, ns, an + ns + ar, [], 0))
  {
    hide ReadQuestions, ReadRecords, Field16, Opcode, Conclude;
  }

  /** The record loop over a cut packet, and what its outcome is concluded to. */
  lemma CutRecords(frame: Image, packet: seq<byte>, q: Question, qend: nat, rs: seq<Record>, lay: seq<Slot>,
                   types: TypeMap, n: nat)
    returns (k: nat)
    requires Complete(packet, q, qend, rs, lay) && Firm(frame, packet, q, qend, rs, lay)
    requires Ordered(rs) && ShortName(q.name) && forall i :: 0 <= i < |rs| ==> Readable(rs[i], types)
    requires 12 <= n < |packet| && n >= qend
    ensures k < |rs| == |lay| && LastEnd(qend, lay, k) <= n < lay[k].end
    ensures
      var cut, an, ns, ar: nat := packet[..n], Count(rs, Answer), Count(rs, Authority), Count(rs, Additional);
      && |cut| >= 12 && qend >= 12
      && var p := Conclude(cut, Query(Present(Labels(q.name)), q.qtype, q.qclass),
                           ReadRecords(cut[12..], qend - 12, types, an, ns, an + ns + ar, [], 0));
         if Truncated(packet) then p.Parsed? && Describes(p.message, q, rs[..k]) else p.Rejected?
  {
    hide *;
    CompleteParts(packet, q, qend, rs, lay);
    var cut, an, ns := packet[..n], Count(rs, Answer), Count(rs, Authority);
    EndsGrow(Base(packet), qend, rs, lay, 0, 0);
    k := CutAfter(qend, lay, n, |lay|);
    QuestionLate(Base(packet), q, qend);
    FirstStart(qend, lay);
    EndsGrow(Base(packet), qend, rs, lay, 0, k);
    BasePrefix(packet, n);
    RecordsInCut(frame, packet, q, qend, rs, lay, n, k);
    NextRunsOut(packet, qend, rs, lay, types, n, k);
    PlacesAgree(rs);
    FirstStart(qend, lay[..k]);
    FrontEnd(qend, lay, k);
    LoopStops(cut[12..], qend, rs[..k], lay[..k], types, an, ns, k, |rs|, [], 0);
    assert cut[..12] == packet[..12];
    DescribesFront(packet, cut, q, rs, k, ReadRecords(cut[12..], qend - 12, types, an, ns, |rs|, [], 0),
                   Query(Present(Labels(q.name)), q.qtype, q.qclass));
  }

  lemma QuestionLate(img: Image, q: Question, qend: nat)
    requires QuestionAt(img, q, qend)
    ensures qend >= 16
  {
  }

  lemma FrontEnd(qend: nat, lay: seq<Slot>, k: nat)
    requires k <= |lay|
    ensures LastEnd(qend, lay[..k], k) == LastEnd(qend, lay, k)
  {
  }
}
