/** What ageDNSPacket does to the records of a packet. */
module AgedRecords {
  import opened Bytes
  import opened Names
  import opened Wire
  import PacketWriter
  import MessageParser
  import Packing
  import RecordReader
  import opened Ageing

  // ---- where the TTLs are ----

  lemma FieldIs(p: seq<byte>, k: nat, v: u16)
    requires k + 2 <= |p| && PacketWriter.Is16(p, k, v)
    ensures Count(p, k) == v
  {
    Get16Inverts(v);
  }

  lemma HeaderCounts(p: seq<byte>, rs: seq<Record>)
    requires PacketWriter.CountsAre(p, rs)
    ensures |p| >= HEADER && Count(p, 4) == 1 && Total(p) == |rs|
  {
    hide PacketWriter.Count, PacketWriter.Is16, Count;
    FieldIs(p, 4, 1);
    FieldIs(p, 6, PacketWriter.Count(rs, Answer));
    FieldIs(p, 8, PacketWriter.Count(rs, Authority));
    FieldIs(p, 10, PacketWriter.Count(rs, Additional));
    PacketWriter.SectionsSum(rs);
  }

  lemma BaseIs(p: seq<byte>)
    requires |p| >= 12
    ensures Agree(PacketWriter.Base(p), p)
  {
  }

  lemma OneQuestion(p: seq<byte>, q: PacketWriter.Question, qend: nat)
    requires |p| >= 12 && PacketWriter.QuestionAt(PacketWriter.Base(p), q, qend)
    ensures QuestionsEnd(p, HEADER, 1) == qend
  {
    BaseIs(p);
    PacketWriter.QuestionMono(PacketWriter.Base(p), p, q, qend);
    hide PacketWriter.Base, Decode, NameEnd;
    QuestionsStep(p, HEADER, 1);
    QuestionsDone(p, qend);
  }

  /** In a packet that holds a question and records, the TTLs lowered are those of the records before the
      first OPT. */
  lemma PacketSpots(p: seq<byte>, q: PacketWriter.Question, qend: nat, rs: seq<Record>, lay: seq<Slot>)
    requires PacketWriter.Complete(p, q, qend, rs, lay)
    ensures |lay| == |rs| && AllSpots(p) == TtlPlaces(p, rs, lay, 0)
  {
    PacketWriter.CompleteParts(p, q, qend, rs, lay);
    hide PacketWriter.Complete, PacketWriter.CountsAre, PacketWriter.QuestionAt, PacketWriter.Base, RecordsAt,
         QuestionsEnd, Spots,
         TtlPlaces, Count, Total;
    HeaderCounts(p, rs);
    OneQuestion(p, q, qend);
    BaseIs(p);
    RecordsMono(PacketWriter.Base(p), p, qend, rs, lay);
    CountedSlots(p, qend, rs, lay);
    SpotsOfRecords(p, qend, rs, lay, 0);
    assert LastEnd(qend, lay, 0) == qend;
  }

  // ---- the records after ageing ----

  /** The first OPT from i on. */
  function FirstOpt(rs: seq<Record>, i: nat): (k: nat)
    requires i <= |rs|
    ensures i <= k <= |rs| && (forall j :: i <= j < k ==> rs[j].qtype != OPT) && (k < |rs| ==> rs[k].qtype == OPT)
    decreases |rs| - i
  {
    if i == |rs| || rs[i].qtype == OPT then i else FirstOpt(rs, i + 1)
  }

  /** Records before the first OPT have their TTL lowered. */
  function AgedOnes(rs: seq<Record>, seconds: u32): (aged: seq<Record>)
    ensures |aged| == |rs|
    ensures forall i :: 0 <= i < |rs| ==>
      aged[i] == if i < FirstOpt(rs, 0) then rs[i].(ttl := Minus(rs[i].ttl, seconds)) else rs[i]
  {
    seq(|rs|, i requires 0 <= i < |rs| =>
      if i < FirstOpt(rs, 0) then rs[i].(ttl := Minus(rs[i].ttl, seconds)) else rs[i])
  }

  lemma {:induction false} PlacesAre(p: seq<byte>, rs: seq<Record>, lay: seq<Slot>, i: nat)
    requires i <= |rs| == |lay|
    ensures var places := TtlPlaces(p, rs, lay, i);
            && |places| == FirstOpt(rs, i) - i
            && forall k :: 0 <= k < |places| ==> places[k] == NameEnd(p, lay[i + k].start) + 4
    decreases |rs| - i
  {
    hide NameEnd;
    if i < |rs| && rs[i].qtype != OPT {
      PlacesAre(p, rs, lay, i + 1);
      var places, rest := TtlPlaces(p, rs, lay, i), TtlPlaces(p, rs, lay, i + 1);
      assert places == [NameEnd(p, lay[i].start) + 4] + rest;
      forall k | 0 <= k < |places|
        ensures places[k] == NameEnd(p, lay[i + k].start) + 4
      {
        if k > 0 {
          assert places[k] == rest[k - 1] == NameEnd(p, lay[i + 1 + (k - 1)].start) + 4;
        }
      }
    }
  }

  /** The header of the i-th record of a packet. */
  function HeaderPos(p: seq<byte>, lay: seq<Slot>, i: nat): (e: int)
    requires i < |lay|
  {
    NameEnd(p, lay[i].start)
  }

  lemma SlotOrder(p: seq<byte>, pos: nat, rs: seq<Record>, lay: seq<Slot>, i: nat)
    requires RecordsAt(p, pos, rs, lay) && i < |rs|
    ensures |lay| == |rs| && 0 <= HeaderPos(p, lay, i) && lay[i].start < HeaderPos(p, lay, i)
    ensures HeaderPos(p, lay, i) + 10 <= lay[i].end <= |p|
    ensures i > 0 ==> lay[i].start == lay[i - 1].end
  {
    hide NamedAt, FieldsAt, BytesAt, GoodRecord;
  }

  lemma {:induction false} SlotsAscend(p: seq<byte>, pos: nat, rs: seq<Record>, lay: seq<Slot>, j: nat, i: nat)
    requires RecordsAt(p, pos, rs, lay) && j < i < |rs|
    ensures |lay| == |rs| && lay[j].end <= lay[i].start
  {
    hide RecordsAt, HeaderPos;
    SlotOrder(p, pos, rs, lay, i);
    if j < i - 1 {
      SlotsAscend(p, pos, rs, lay, j, i - 1);
      SlotOrder(p, pos, rs, lay, i - 1);
    }
  }

  /** A byte of a lowered TTL belongs to a record before the first OPT. */
  lemma SpotRecord(p: seq<byte>, q: PacketWriter.Question, qend: nat, rs: seq<Record>, lay: seq<Slot>, x: nat)
    returns (k: nat)
    requires PacketWriter.Complete(p, q, qend, rs, lay) && InSpot(AllSpots(p), x)
    ensures k < FirstOpt(rs, 0) && |lay| == |rs| && HeaderPos(p, lay, k) + 4 <= x < HeaderPos(p, lay, k) + 8
  {
    hide PacketWriter.Complete, AllSpots, TtlPlaces, FirstOpt, NameEnd;
    PacketSpots(p, q, qend, rs, lay);
    PlacesAre(p, rs, lay, 0);
    k := SpotOf(AllSpots(p), x);
    assert lay[0 + k] == lay[k];
  }

  lemma SpotListed(p: seq<byte>, q: PacketWriter.Question, qend: nat, rs: seq<Record>, lay: seq<Slot>, i: nat)
    requires PacketWriter.Complete(p, q, qend, rs, lay) && i < FirstOpt(rs, 0)
    ensures |lay| == |rs| && i < |AllSpots(p)| && AllSpots(p)[i] == HeaderPos(p, lay, i) + 4
  {
    hide PacketWriter.Complete, AllSpots, TtlPlaces, FirstOpt, NameEnd;
    PacketSpots(p, q, qend, rs, lay);
    PlacesAre(p, rs, lay, 0);
    assert lay[0 + i] == lay[i];
  }

  /** In the header of a record only the TTL is lowered, and only before the first OPT. */
  lemma SpotOwner(p: seq<byte>, q: PacketWriter.Question, qend: nat, rs: seq<Record>, lay: seq<Slot>, i: nat, x: nat)
    requires PacketWriter.Complete(p, q, qend, rs, lay) && RecordsAt(p, qend, rs, lay) && i < |rs| == |lay|
    requires InSpot(AllSpots(p), x) && HeaderPos(p, lay, i) <= x < HeaderPos(p, lay, i) + 10
    ensures i < FirstOpt(rs, 0) && HeaderPos(p, lay, i) + 4 <= x < HeaderPos(p, lay, i) + 8
  {
    hide PacketWriter.Complete, AllSpots, FirstOpt, HeaderPos, RecordsAt, InSpot;
    var k := SpotRecord(p, q, qend, rs, lay, x);
    SlotOrder(p, qend, rs, lay, i);
    SlotOrder(p, qend, rs, lay, k);
    if k < i {
      SlotsAscend(p, qend, rs, lay, k, i);
    } else if i < k {
      SlotsAscend(p, qend, rs, lay, i, k);
    }
  }

  lemma HeaderAged(p: seq<byte>, a: seq<byte>, e: nat, r: Record, clen: u16, ttl: u32)
    requires BytesAt(p, e, RecordHeader(r, clen)) && |a| == |p|
    requires forall x :: e <= x < e + 4 || e + 8 <= x < e + 10 ==> a[x] == p[x]
    requires Ttl(a, e + 4) == ttl
    ensures BytesAt(a, e, RecordHeader(r.(ttl := ttl), clen))
  {
    var h, g := RecordHeader(r, clen), RecordHeader(r.(ttl := ttl), clen);
    Get32Bytes(a[e + 4], a[e + 5], a[e + 6], a[e + 7]);
    hide U16, U32, Get32;
    forall j | 0 <= j < 10
      ensures a[e + j] == g[j]
    {
      assert p[e + j] == h[j];
      if 4 <= j < 8 {
        assert g[j] == U32(ttl)[j - 4];
      }
    }
  }

  /** The header of a record stands at e; the record ends at end. */
  ghost predicate HeaderAt(p: seq<byte>, e: int, r: Record, end: nat)
  {
    0 <= e && e + 10 <= end <= |p| && end - e - 10 < 0x10000 && BytesAt(p, e, RecordHeader(r, end - e - 10))
  }

  lemma SlotHeader(p: seq<byte>, at: Slot, r: Record)
    requires RecordAt(p, at, r)
    ensures HeaderAt(p, NameEnd(p, at.start), r, at.end) && Ttl(p, NameEnd(p, at.start) + 4) == r.ttl
  {
    hide NamedAt, FieldsAt, GoodRecord, BytesAt, RecordHeader, NameEnd, Ttl;
    var e := NameEnd(p, at.start);
    HeaderFacts(p, e, r, at.end - e - 10);
  }

  lemma PacketSlot(p: seq<byte>, q: PacketWriter.Question, qend: nat, rs: seq<Record>, lay: seq<Slot>, i: nat)
    requires PacketWriter.Complete(p, q, qend, rs, lay) && i < |rs|
    ensures RecordsAt(p, qend, rs, lay) && |lay| == |rs| && RecordAt(p, lay[i], rs[i])
  {
    PacketWriter.CompleteParts(p, q, qend, rs, lay);
    hide PacketWriter.Complete, PacketWriter.CountsAre, PacketWriter.QuestionAt, PacketWriter.Base, RecordsAt, RecordAt;
    BaseIs(p);
    RecordsMono(PacketWriter.Base(p), p, qend, rs, lay);
    SlotOf(p, qend, rs, lay, i);
  }

  /** In the header of a record ageing changes the TTL at most, and that only before the first OPT. */
  lemma HeaderKept(p: seq<byte>, q: PacketWriter.Question, qend: nat, rs: seq<Record>, lay: seq<Slot>, seconds: u32,
                   i: nat, x: nat)
    requires PacketWriter.Complete(p, q, qend, rs, lay) && i < |rs| == |lay|
    requires HeaderPos(p, lay, i) <= x < HeaderPos(p, lay, i) + 10 && x < |p|
    requires x < HeaderPos(p, lay, i) + 4 || HeaderPos(p, lay, i) + 8 <= x || FirstOpt(rs, 0) <= i
    ensures Aged(p, seconds)[x] == p[x]
  {
    hide PacketWriter.Complete, RecordsAt, RecordAt, AllSpots, FirstOpt, Aged, InSpot, HeaderPos;
    PacketSlot(p, q, qend, rs, lay, i);
    AgedIs(p, seconds);
    if InSpot(AllSpots(p), x) {
      SpotOwner(p, q, qend, rs, lay, i, x);
    }
  }

  lemma TtlAged(p: seq<byte>, q: PacketWriter.Question, qend: nat, rs: seq<Record>, lay: seq<Slot>, seconds: u32,
                i: nat)
    requires PacketWriter.Complete(p, q, qend, rs, lay) && i < |rs|
    ensures |lay| == |rs| && 0 <= HeaderPos(p, lay, i) && HeaderPos(p, lay, i) + 10 <= |p|
    ensures Ttl(Aged(p, seconds), HeaderPos(p, lay, i) + 4) == AgedOnes(rs, seconds)[i].ttl
  {
    hide PacketWriter.Complete, RecordsAt, RecordAt, AllSpots, FirstOpt, Aged, Ttl, InSpot, Minus, NameEnd, BytesAt,
         RecordHeader;
    PacketSlot(p, q, qend, rs, lay, i);
    SlotHeader(p, lay[i], rs[i]);
    var e := HeaderPos(p, lay, i);
    if i < FirstOpt(rs, 0) {
      SpotListed(p, q, qend, rs, lay, i);
      AgedIs(p, seconds);
    } else {
      forall x | e + 4 <= x < e + 8
        ensures Aged(p, seconds)[x] == p[x]
      {
        HeaderKept(p, q, qend, rs, lay, seconds, i, x);
      }
      SameTtlAt(p, Aged(p, seconds), e + 4);
    }
  }

  /** Ageing a packet of records: every record before the first OPT has its TTL lowered modulo 2^32, and
      every header is otherwise as it was. */
  lemma RecordAged(p: seq<byte>, q: PacketWriter.Question, qend: nat, rs: seq<Record>, lay: seq<Slot>, seconds: u32,
                   i: nat)
    requires PacketWriter.Complete(p, q, qend, rs, lay) && i < |rs|
    ensures |lay| == |rs| && HeaderAt(Aged(p, seconds), NameEnd(p, lay[i].start), AgedOnes(rs, seconds)[i], lay[i].end)
  {
    hide PacketWriter.Complete, RecordsAt, RecordAt, FirstOpt, Aged, Ttl, Minus, NameEnd, BytesAt, RecordHeader;
    PacketSlot(p, q, qend, rs, lay, i);
    SlotHeader(p, lay[i], rs[i]);
    TtlAged(p, q, qend, rs, lay, seconds, i);
    var e := HeaderPos(p, lay, i);
    forall x | e <= x < e + 4 || e + 8 <= x < e + 10
      ensures Aged(p, seconds)[x] == p[x]
    {
      HeaderKept(p, q, qend, rs, lay, seconds, i, x);
    }
    HeaderAged(p, Aged(p, seconds), e, rs[i], lay[i].end - e - 10, AgedOnes(rs, seconds)[i].ttl);
  }

  lemma SameTtlAt(p: seq<byte>, a: seq<byte>, at: nat)
    requires |a| == |p| && at + 4 <= |p| && forall x :: at <= x < at + 4 ==> a[x] == p[x]
    ensures Ttl(a, at) == Ttl(p, at)
  {
  }

  // ---- the packet after ageing ----

  lemma FrameKept(frame: Image, p: seq<byte>, q: PacketWriter.Question, qend: nat, rs: seq<Record>, lay: seq<Slot>,
                  seconds: u32)
    requires PacketWriter.Complete(p, q, qend, rs, lay) && PacketWriter.Firm(frame, p, q, qend, rs, lay)
    ensures |p| >= 12 && Agree(frame, PacketWriter.Base(Aged(p, seconds)))
  {
    hide PacketWriter.Complete, AllSpots, Aged, InSpot, FirstOpt;
    AgedIs(p, seconds);
    var a := Aged(p, seconds);
    forall x | 0 <= x < |frame|
      ensures frame[x] == -1 || frame[x] == PacketWriter.Base(a)[x]
    {
      assert frame[x] == -1 || frame[x] == PacketWriter.Base(p)[x];
      if x >= 12 && InSpot(AllSpots(p), x) {
        var k := SpotRecord(p, q, qend, rs, lay, x);
        HoleThere(frame, p, q, qend, rs, lay, k, x);
      }
    }
  }

  lemma HoleThere(frame: Image, p: seq<byte>, q: PacketWriter.Question, qend: nat, rs: seq<Record>, lay: seq<Slot>,
                  k: nat, x: nat)
    requires PacketWriter.Firm(frame, p, q, qend, rs, lay) && k < |rs| == |lay|
    requires HeaderPos(p, lay, k) <= x < HeaderPos(p, lay, k) + 10
    ensures x < |frame| && frame[x] == -1
  {
    hide FieldsAt, Decode, NameEnd;
    StandsWhole(frame, rs, lay, k);
    BaseIs(p);
    PacketWriter.AgreeTwice(frame, PacketWriter.Base(p), p);
    DecodeMono(frame, p, lay[k].start, Budget(Labels(rs[k].name)));
  }

  lemma StandsSlot(frame: Image, img: Image, at: Slot, r: Record)
    requires StandsAt(frame, at, r) && Agree(frame, img) && |frame| == |img| && GoodRecord(r)
    requires var e := NameEnd(img, at.start);
             && 0 <= e && e + 10 <= at.end && at.end - e - 10 < 0x10000
             && BytesAt(img, e, RecordHeader(r, at.end - e - 10)) && StartOf(e + 10, at.fends, |at.fends|) == at.end
    ensures RecordAt(img, at, r)
  {
    hide FieldsAt, Decode, NameEnd, RecordHeader, BytesAt, GoodRecord;
    DecodeMono(frame, img, at.start, Budget(Labels(r.name)));
    FieldsMono(frame, img, NameEnd(frame, at.start) + 10, r.rdata, at.fends);
  }

  /** The TTL says nothing about where a record stands. */
  lemma StandsAnyTtl(frame: Image, rs: seq<Record>, lay: seq<Slot>, seconds: u32)
    requires Stands(frame, rs, lay)
    ensures Stands(frame, AgedOnes(rs, seconds), lay)
  {
    hide FirstOpt, Minus;
    forall i | 0 <= i < |lay|
      ensures lay[i].end <= |frame| && StandsAt(frame[..lay[i].end], lay[i], AgedOnes(rs, seconds)[i])
    {
      assert StandsAt(frame[..lay[i].end], lay[i], rs[i]);
    }
  }

  lemma SlotLate(frame: Image, p: seq<byte>, at: Slot, r: Record)
    requires |p| >= 12 && StandsAt(frame, at, r) && Agree(frame, PacketWriter.Base(p))
    ensures 12 <= at.start
  {
  }

  lemma HeaderInBase(p: seq<byte>, e: int, r: Record, end: nat)
    requires |p| >= 12 && e >= 12 && HeaderAt(p, e, r, end)
    ensures e + 10 <= end && end - e - 10 < 0x10000
    ensures BytesAt(PacketWriter.Base(p), e, RecordHeader(r, end - e - 10))
  {
    hide RecordHeader;
    var h := RecordHeader(r, end - e - 10);
    forall j | 0 <= j < 10
      ensures PacketWriter.Base(p)[e + j] == h[j]
    {
      assert p[e + j] == h[j];
    }
  }

  lemma SlotShape(p: seq<byte>, at: Slot, r: Record)
    requires RecordAt(p, at, r)
    ensures GoodRecord(r) && NameEnd(p, at.start) >= 0
    ensures StartOf(NameEnd(p, at.start) + 10, at.fends, |at.fends|) == at.end
  {
    hide NamedAt, FieldsAt, GoodRecord, BytesAt, NameEnd;
  }

  /** A record with another header in its old place. */
  lemma NewHeader(frame: Image, p: seq<byte>, a: seq<byte>, at: Slot, r: Record, r': Record)
    requires |p| >= 12 && |a| == |p| == |frame| && Agree(frame, PacketWriter.Base(p))
    requires Agree(frame, PacketWriter.Base(a))
    requires StandsAt(frame, at, r') && GoodRecord(r') && RecordAt(p, at, r)
    requires HeaderAt(a, NameEnd(p, at.start), r', at.end)
    ensures RecordAt(PacketWriter.Base(a), at, r')
  {
    hide *;
    SlotShape(p, at, r);
    SlotNameEnd(frame, p, PacketWriter.Base(a), at, r');
    SlotLate(frame, p, at, r');
    HeaderInBase(a, NameEnd(p, at.start), r', at.end);
    StandsSlot(frame, PacketWriter.Base(a), at, r');
  }

  lemma AgedGood(rs: seq<Record>, seconds: u32, i: nat)
    requires i < |rs| && GoodRecord(rs[i])
    ensures GoodRecord(AgedOnes(rs, seconds)[i])
  {
    hide FirstOpt, Minus, GoodField, GoodName;
  }

  lemma StandsSize(frame: Image, rs: seq<Record>, lay: seq<Slot>)
    requires Stands(frame, rs, lay)
    ensures |lay| == |rs|
  {
  }

  lemma StandsOne(frame: Image, rs: seq<Record>, lay: seq<Slot>, i: nat)
    requires Stands(frame, rs, lay) && i < |rs|
    ensures |lay| == |rs| && StandsAt(frame, lay[i], rs[i])
  {
    hide StandsAt;
    StandsWhole(frame, rs, lay, i);
  }

  lemma AgedSlot(frame: Image, p: seq<byte>, q: PacketWriter.Question, qend: nat, rs: seq<Record>, lay: seq<Slot>,
                 seconds: u32, i: nat)
    requires PacketWriter.Complete(p, q, qend, rs, lay) && PacketWriter.Firm(frame, p, q, qend, rs, lay) && i < |rs|
    ensures |p| >= 12 && |lay| == |rs|
    ensures RecordAt(PacketWriter.Base(Aged(p, seconds)), lay[i], AgedOnes(rs, seconds)[i])
  {
    hide *;
    PacketWriter.FirmParts(frame, p, q, qend, rs, lay);
    FrameKept(frame, p, q, qend, rs, lay, seconds);
    PacketSlot(p, q, qend, rs, lay, i);
    SlotShape(p, lay[i], rs[i]);
    RecordAged(p, q, qend, rs, lay, seconds, i);
    StandsAnyTtl(frame, rs, lay, seconds);
    StandsOne(frame, AgedOnes(rs, seconds), lay, i);
    AgedGood(rs, seconds, i);
    NewHeader(frame, p, Aged(p, seconds), lay[i], rs[i], AgedOnes(rs, seconds)[i]);
  }

  lemma {:induction false} CountAged(a: seq<Record>, b: seq<Record>, place: Place)
    requires |a| == |b| && forall i :: 0 <= i < |a| ==> a[i].place == b[i].place
    ensures PacketWriter.Count(a, place) == PacketWriter.Count(b, place)
  {
    if a != [] {
      CountAged(a[..|a| - 1], b[..|b| - 1], place);
    }
  }

  lemma CountsAged(p: seq<byte>, a: seq<byte>, rs: seq<Record>, seconds: u32)
    requires PacketWriter.CountsAre(p, rs) && |a| == |p| && forall x :: 0 <= x < 12 ==> a[x] == p[x]
    ensures PacketWriter.CountsAre(a, AgedOnes(rs, seconds))
  {
    hide PacketWriter.Count, FirstOpt, Minus;
    CountAged(rs, AgedOnes(rs, seconds), Answer);
    CountAged(rs, AgedOnes(rs, seconds), Authority);
    CountAged(rs, AgedOnes(rs, seconds), Additional);
  }

  lemma HeadKept(p: seq<byte>, seconds: u32)
    requires |p| >= 12
    ensures forall x :: 0 <= x < 12 ==> Aged(p, seconds)[x] == p[x]
  {
    hide AllSpots, Aged, InSpot;
    AgedIs(p, seconds);
    forall x | 0 <= x < 12
      ensures Aged(p, seconds)[x] == p[x]
    {
      HeadFree(AllSpots(p), HEADER, x);
    }
  }

  lemma RecordsFold(img: Image, pos: nat, rs: seq<Record>, lay: seq<Slot>, img0: Image, rs0: seq<Record>)
    requires RecordsAt(img0, pos, rs0, lay) && |rs| == |rs0| == |lay|
    requires forall i :: 0 <= i < |rs| ==> RecordAt(img, lay[i], rs[i])
    ensures RecordsAt(img, pos, rs, lay)
  {
    hide RecordAt;
  }

  /** A packet whose names keep off its record headers is, after ageing, a packet of the same question and
      the same records, with the TTLs before the first OPT lowered. */
  lemma AgedComplete(frame: Image, p: seq<byte>, q: PacketWriter.Question, qend: nat, rs: seq<Record>, lay: seq<Slot>,
                     seconds: u32)
    requires PacketWriter.Complete(p, q, qend, rs, lay) && PacketWriter.Firm(frame, p, q, qend, rs, lay)
    ensures PacketWriter.Complete(Aged(p, seconds), q, qend, AgedOnes(rs, seconds), lay)
    ensures PacketWriter.Firm(frame, Aged(p, seconds), q, qend, AgedOnes(rs, seconds), lay)
  {
    hide *;
    PacketWriter.FirmParts(frame, p, q, qend, rs, lay);
    PacketWriter.CompleteParts(p, q, qend, rs, lay);
    var a, aged := Aged(p, seconds), AgedOnes(rs, seconds);
    FrameKept(frame, p, q, qend, rs, lay, seconds);
    HeadKept(p, seconds);
    CountsAged(p, a, rs, seconds);
    PacketWriter.QuestionMono(frame, PacketWriter.Base(a), q, qend);
    assert |lay| == |rs| by { StandsSize(frame, rs, lay); }
    forall i | 0 <= i < |rs|
      ensures RecordAt(PacketWriter.Base(a), lay[i], aged[i])
    {
      AgedSlot(frame, p, q, qend, rs, lay, seconds, i);
    }
    RecordsFold(PacketWriter.Base(a), qend, aged, lay, PacketWriter.Base(p), rs);
    PacketWriter.CompleteFolds(a, q, qend, aged, lay);
    StandsAnyTtl(frame, rs, lay, seconds);
    PacketWriter.FirmFold(frame, a, q, qend, aged, lay);
  }

  lemma SlotNameEnd(frame: Image, p: seq<byte>, img: Image, at: Slot, r: Record)
    requires |p| >= 12 && StandsAt(frame, at, r) && Agree(frame, PacketWriter.Base(p)) && Agree(frame, img)
    ensures NameEnd(p, at.start) == NameEnd(frame, at.start) == NameEnd(img, at.start)
  {
    hide FieldsAt, Decode, NameEnd;
    BaseIs(p);
    PacketWriter.AgreeTwice(frame, PacketWriter.Base(p), p);
    DecodeMono(frame, p, at.start, Budget(Labels(r.name)));
    DecodeMono(frame, img, at.start, Budget(Labels(r.name)));
  }

  lemma AgedReads(rs: seq<Record>, types: RecordReader.TypeMap, seconds: u32)
    requires MessageParser.Ordered(rs) && forall i :: 0 <= i < |rs| ==> RecordReader.Readable(rs[i], types)
    ensures MessageParser.Ordered(AgedOnes(rs, seconds))
    ensures forall i :: 0 <= i < |rs| ==> RecordReader.Readable(AgedOnes(rs, seconds)[i], types)
  {
    hide FirstOpt, Minus, RecordReader.ShortName, RecordReader.Fits;
    forall i | 0 <= i < |rs|
      ensures RecordReader.Readable(AgedOnes(rs, seconds)[i], types)
    {
      assert RecordReader.Readable(rs[i], types);
    }
  }

  /** A packet written, aged in place and parsed: the question and the records, each before the first OPT
      with its TTL lowered. */
  method WriteAgeParse(q: PacketWriter.Question, rs: seq<Record>, opcode: nat, types: RecordReader.TypeMap,
                       seconds: u32)
    returns (p: Option<MessageParser.Parse>)
    requires MessageParser.Writable(q, rs) && MessageParser.PlainQuestion(q) <= 65535
    requires MessageParser.Ordered(rs) && RecordReader.ShortName(q.name) && (opcode == 0 || opcode == 4)
    requires forall i :: 0 <= i < |rs| ==> RecordReader.Readable(rs[i], types)
    ensures p.Some? <==> MessageParser.PacketSize(q.name, rs, |rs|) <= 65535
    ensures p.Some? ==> p.value.Parsed? && MessageParser.Describes(p.value.message, q, AgedOnes(rs, seconds))
  {
    hide PacketWriter.Complete, PacketWriter.Firm, MessageParser.Writable, MessageParser.Describes,
         RecordReader.Readable,
         RecordReader.ShortName, MessageParser.Ordered, MessageParser.PacketSize, Aged, AgedOnes;
    var ok, packet;
    ghost var qend, lay, frame;
    ok, packet, qend, lay, frame := MessageParser.WriteMessage(q, rs, opcode);
    if !ok {
      return None;
    }
    assert packet[2] == packet[..6][2] == PacketWriter.InitialHeader(opcode)[..6][2] == opcode * 8;
    var buffer := new byte[|packet|](i requires 0 <= i < |packet| => packet[i]);
    assert buffer[..] == packet;
    AgeDNSPacket(buffer, seconds);
    HeadKept(packet, seconds);
    AgedComplete(frame, packet, q, qend, rs, lay, seconds);
    AgedReads(rs, types, seconds);
    var parse := MessageParser.Init(buffer[..], types);
    MessageParser.WrittenReads(buffer[..], q, qend, AgedOnes(rs, seconds), lay, types);
    p := Some(parse);
  }

  lemma ReadableAs(a: seq<Record>, b: seq<Record>, k: nat, types: RecordReader.TypeMap)
    requires k <= |b| && forall r :: r in a ==> RecordReader.Readable(r, types)
    requires forall r :: r in b ==> r in a
    ensures forall i :: 0 <= i < k ==> RecordReader.Readable(b[..k][i], types)
  {
    hide RecordReader.Readable;
    forall i | 0 <= i < k
      ensures RecordReader.Readable(b[..k][i], types)
    {
      assert b[i] in b;
    }
  }

  lemma OrderedPrefix(rs: seq<Record>, k: nat)
    requires MessageParser.Ordered(rs) && k <= |rs|
    ensures MessageParser.Ordered(rs[..k])
  {
  }

  lemma ResponseOpcode(packet: seq<byte>, id: u16, tc: bool, rd: bool, flags2: byte)
    requires |packet| >= 12 && Packing.Head(packet, id, Packing.Flags(tc, rd), flags2)
    ensures MessageParser.Opcode(packet) == 0
  {
    hide U16;
  }

  /** The recursor's use of ageing: a response it packed is aged when it is given out again, and a client
      that parses it finds the records packed, each before the first OPT with its TTL lowered. */
  method RespondAgeParse(q: PacketWriter.Question, id: u16, rd: bool, res: int, ret: seq<Record>, maxanswersize: nat,
                         random: nat -> nat, types: RecordReader.TypeMap, seconds: u32)
    returns (p: MessageParser.Parse, ghost sorted: seq<Record>, ghost k: nat)
    requires Packing.Packable(q, ret) && GoodName(q.name) && MessageParser.PlainQuestion(q) <= maxanswersize <= 65535
    requires RecordReader.ShortName(q.name) && forall r :: r in ret ==> RecordReader.Readable(r, types)
    ensures multiset(sorted) == multiset(if res < 0 then [] else ret) && MessageParser.Ordered(sorted)
    ensures Packing.Longest(q, sorted, k, maxanswersize) && k <= |sorted|
    ensures p.Parsed? && MessageParser.Describes(p.message, q, AgedOnes(sorted[..k], seconds))
  {
    hide PacketWriter.Complete, PacketWriter.Firm, Packing.Packable, Packing.Longest, MessageParser.Describes, GoodName,
         RecordReader.Readable, RecordReader.ShortName, MessageParser.Ordered, MessageParser.PacketSize, Aged, AgedOnes,
         Packing.Head, MessageParser.Truncated;
    var packet;
    ghost var qend, lay, frame;
    packet, sorted, k, qend, lay, frame := Packing.Respond(q, id, rd, res, ret, maxanswersize, random);
    var buffer := new byte[|packet|](i requires 0 <= i < |packet| => packet[i]);
    assert buffer[..] == packet;
    AgeDNSPacket(buffer, seconds);
    ghost var rs := sorted[..k];
    HeadKept(packet, seconds);
    AgedComplete(frame, packet, q, qend, rs, lay, seconds);
    SameMembers(sorted, ret);
    ReadableAs(ret, sorted, k, types);
    OrderedPrefix(sorted, k);
    AgedReads(rs, types, seconds);
    ResponseOpcode(packet, id, Packing.AnswerAmong(sorted, k), rd, Packing.Rcode(res));
    p := MessageParser.Init(buffer[..], types);
    MessageParser.WrittenReads(buffer[..], q, qend, AgedOnes(rs, seconds), lay, types);
  }

  lemma SameMembers(a: seq<Record>, b: seq<Record>)
    requires multiset(a) <= multiset(b)
    ensures forall r :: r in a ==> r in b
  {
    forall r | r in a
      ensures r in b
    {
      assert r in multiset(a);
    }
  }

  // ---- names that run through a TTL ----

  const KNOTQUESTION: PacketWriter.Question := PacketWriter.Question([97], 1, 1)
  const KNOTRECORD: Record := Record([98], 1, 1, 0x0162_0000, Answer, [])

  /** One answer, named by a pointer to its own TTL, which happens to spell a name. */
  const KNOT: seq<byte> :=
    [0, 0, 0, 0, 0, 1, 0, 1, 0, 0, 0, 0] + [1, 97, 0, 0, 1, 0, 1] + [0xc0, 25, 0, 1, 0, 1, 1, 98, 0, 0, 0, 0]

  lemma KnotQuestion()
    ensures PacketWriter.QuestionAt(PacketWriter.Base(KNOT), KNOTQUESTION, 19)
  {
    var img := PacketWriter.Base(KNOT);
    assert Parts([97], 0, 0) == Parts([97], 0, 1) == [[97][0..1]];
    assert [97][0..1] == [97];
    assert img[13..14] == [97];
    assert Decode(img, 14, 0) == Name([]);
    assert Decode(img, 12, 0) == Name([[97]]);
    assert NameEnd(img, 14) == 15 && NameEnd(img, 12) == 15;
  }

  lemma KnotRecord()
    ensures RecordAt(PacketWriter.Base(KNOT), Slot(19, 31, []), KNOTRECORD)
  {
    var img := PacketWriter.Base(KNOT);
    var name: seq<byte> := [98];
    assert Parts(name, 0, 0) == Parts(name, 0, 1) == [name[0..1]];
    assert name[0..1] == name;
    assert img[26..27] == [98];
    assert Decode(img, 27, 0) == Name([]);
    assert Decode(img, 25, 0) == Name([[98]]);
    assert Decode(img, 19, 1) == Name([[98]]);
    assert NameEnd(img, 19) == 21;
    assert Labels(name) == [name];
    KnotHeader();
    hide Decode, NameEnd, PacketWriter.Base, RecordHeader, Labels;
  }

  lemma KnotHeader()
    ensures BytesAt(PacketWriter.Base(KNOT), 21, RecordHeader(KNOTRECORD, 0))
  {
    assert RecordHeader(KNOTRECORD, 0) == [0, 1, 0, 1, 1, 98, 0, 0, 0, 0];
  }

  /** Such a packet holds its record, but after ageing by a second its name cannot be read. */
  lemma KnotAged(hops: nat)
    ensures PacketWriter.Complete(KNOT, KNOTQUESTION, 19, [KNOTRECORD], [Slot(19, 31, [])])
    ensures !Decode(Aged(KNOT, 1), 19, hops).Name?
  {
    hide *;
    KnotQuestion();
    KnotRecord();
    KnotComplete();
    KnotSpots();
    AgedOnce(KNOT, 25, 1);
    KnotLowered(LowerAt(KNOT, 25, 1));
    KnotLost(LowerAt(KNOT, 25, 1), hops);
  }

  lemma AgedOnce(p: seq<byte>, at: nat, seconds: u32)
    requires AllSpots(p) == [at]
    ensures at + 4 <= |p| && Aged(p, seconds) == LowerAt(p, at, seconds)
  {
    hide AllSpots, LowerAt;
    assert AllSpots(p)[0] == at;
    LoweredNone(p, [], seconds);
    assert Lowered(p, [at], 0, seconds) == p;
  }

  lemma KnotLowered(a: seq<byte>)
    requires a == LowerAt(KNOT, 25, 1)
    ensures |a| == 31 && a[19] == 0xc0 && a[20] == 25 && a[25] == 1 && a[26] == 97 && a[27] == 0xff && a[28] == 0xff
  {
    assert Ttl(KNOT, 25) == 0x0162_0000;
    var u := U32(0x0161_ffff);
    assert u == [1, 97, 0xff, 0xff];
    assert a[25] == u[0] && a[26] == u[1] && a[27] == u[2] && a[28] == u[3];
  }

  lemma KnotLost(a: seq<byte>, hops: nat)
    requires |a| == 31 && a[19] == 0xc0 && a[20] == 25 && a[25] == 1 && a[26] == 97 && a[27] == 0xff && a[28] == 0xff
    ensures !Decode(a, 19, hops).Name?
  {
    if hops > 0 {
      assert Target(a, 27) == 16383;
      assert !Decode(a, 27, hops - 1).Name?;
      assert !Decode(a, 25, hops - 1).Name?;
    }
  }

  lemma KnotComplete()
    requires PacketWriter.QuestionAt(PacketWriter.Base(KNOT), KNOTQUESTION, 19)
    requires RecordAt(PacketWriter.Base(KNOT), Slot(19, 31, []), KNOTRECORD)
    ensures PacketWriter.Complete(KNOT, KNOTQUESTION, 19, [KNOTRECORD], [Slot(19, 31, [])])
  {
    hide PacketWriter.QuestionAt, RecordAt;
    var rs := [KNOTRECORD];
    assert rs[..0] == [];
    assert PacketWriter.Count(rs, Answer) == 1;
    assert PacketWriter.Count(rs, Authority) == 0 && PacketWriter.Count(rs, Additional) == 0;
  }

  lemma KnotSpots()
    requires PacketWriter.Complete(KNOT, KNOTQUESTION, 19, [KNOTRECORD], [Slot(19, 31, [])])
    ensures AllSpots(KNOT) == [25]
  {
    PacketSpots(KNOT, KNOTQUESTION, 19, [KNOTRECORD], [Slot(19, 31, [])]);
    assert NameEnd(KNOT, 19) == 21;
  }
}
