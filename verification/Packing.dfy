/** The recursor packs its answer: the records are put in section order, parts of them are shuffled,
    and they are written one after the other until one does not fit. */
module Packing {
  import opened Bytes
  import opened Names
  import opened Wire
  import NameWriter
  import opened Compression
  import opened PacketWriter
  import MessageParser

  const CNAME: u16 := 5

  // ---- orderAndShuffle ----

  /** The records of one section, in their order. */
  function Of(p: Place, rs: seq<Record>): (r: seq<Record>)
    ensures forall i :: 0 <= i < |r| ==> r[i].place == p
    decreases |rs|
  {
    if rs == [] then [] else (if rs[0].place == p then [rs[0]] else []) + Of(p, rs[1..])
  }

  /** std::stable_sort by section. */
  function StableSorted(rs: seq<Record>): (r: seq<Record>)
  {
    Of(Answer, rs) + Of(Authority, rs) + Of(Additional, rs)
  }

  lemma {:induction false} OfAll(rs: seq<Record>, x: Record)
    ensures multiset(rs)[x]
         == multiset(Of(Answer, rs))[x] + multiset(Of(Authority, rs))[x] + multiset(Of(Additional, rs))[x]
    decreases |rs|
  {
    if rs != [] {
      hide Of;
      OfAll(rs[1..], x);
      OfStep(Answer, rs, x);
      OfStep(Authority, rs, x);
      OfStep(Additional, rs, x);
      FirstAndRest(rs, x);
    }
  }

  lemma FirstAndRest(rs: seq<Record>, x: Record)
    requires rs != []
    ensures multiset(rs)[x] == (if rs[0] == x then 1 else 0) + multiset(rs[1..])[x]
  {
    assert rs == [rs[0]] + rs[1..];
  }

  lemma OfStep(p: Place, rs: seq<Record>, x: Record)
    requires rs != []
    ensures multiset(Of(p, rs))[x] == (if rs[0].place == p && rs[0] == x then 1 else 0) + multiset(Of(p, rs[1..]))[x]
  {
  }

  lemma StableSortedIs(rs: seq<Record>)
    ensures multiset(StableSorted(rs)) == multiset(rs) && MessageParser.Ordered(StableSorted(rs))
  {
    hide Of;
    forall x ensures multiset(StableSorted(rs))[x] == multiset(rs)[x] {
      OfAll(rs, x);
    }
  }

  /** Same records, and the same section at every place. */
  ghost predicate Reshuffled(a: seq<Record>, b: seq<Record>)
  {
    |a| == |b| && multiset(a) == multiset(b) && forall i :: 0 <= i < |a| ==> a[i].place == b[i].place
  }

  lemma SwapReshuffles(a: seq<Record>, b: seq<Record>, i: nat, j: nat)
    requires Reshuffled(a, b) && i < |b| && j < |b| && b[i].place == b[j].place
    ensures Reshuffled(a, b[i := b[j]][j := b[i]])
  {
  }

  lemma OrderedAgain(a: seq<Record>, b: seq<Record>)
    requires Reshuffled(a, b) && MessageParser.Ordered(a)
    ensures MessageParser.Ordered(b)
  {
  }

  /** The i-th of these records stood at from[i] in rs; within a section they keep the order of rs. */
  ghost predicate Picked(rs: seq<Record>, part: seq<Record>, from: seq<nat>)
  {
    && |from| == |part|
    && (forall i :: 0 <= i < |part| ==> from[i] < |rs| && part[i] == rs[from[i]])
    && (forall i, j :: 0 <= i < j < |part| && part[i].place == part[j].place ==> from[i] < from[j])
  }

  /** All of rs in section order, and within a section in the order of rs. */
  ghost predicate Stable(rs: seq<Record>, sorted: seq<Record>, from: seq<nat>)
  {
    |sorted| == |rs| && MessageParser.Ordered(sorted) && Picked(rs, sorted, from)
  }

  lemma PickedBoth(rs: seq<Record>, a: seq<Record>, fa: seq<nat>, b: seq<Record>, fb: seq<nat>)
    requires Picked(rs, a, fa) && Picked(rs, b, fb)
    requires forall i, j :: 0 <= i < |a| && 0 <= j < |b| ==> a[i].place != b[j].place
    ensures Picked(rs, a + b, fa + fb)
  {
  }

  /** The places in rs of the records of one section. */
  function PlacesOf(p: Place, rs: seq<Record>, k: nat): (r: seq<nat>)
    requires k <= |rs|
    ensures forall i :: 0 <= i < |r| ==> k <= r[i] < |rs| && rs[r[i]].place == p
    ensures forall i, j :: 0 <= i < j < |r| ==> r[i] < r[j]
    decreases |rs| - k
  {
    if k == |rs| then [] else (if rs[k].place == p then [k] else []) + PlacesOf(p, rs, k + 1)
  }

  lemma {:induction false} OfPlaces(p: Place, rs: seq<Record>, k: nat)
    requires k <= |rs|
    ensures |Of(p, rs[k..])| == |PlacesOf(p, rs, k)|
    ensures forall i :: 0 <= i < |PlacesOf(p, rs, k)| ==> Of(p, rs[k..])[i] == rs[PlacesOf(p, rs, k)[i]]
    decreases |rs| - k
  {
    if k < |rs| {
      OfPlaces(p, rs, k + 1);
      assert rs[k..][1..] == rs[k + 1..];
    }
  }

  lemma OfPicked(p: Place, rs: seq<Record>)
    ensures Picked(rs, Of(p, rs), PlacesOf(p, rs, 0))
  {
    OfPlaces(p, rs, 0);
    assert rs[0..] == rs;
    hide Of, PlacesOf;
  }

  lemma SameSize(a: seq<Record>, b: seq<Record>)
    requires multiset(a) == multiset(b)
    ensures |a| == |b|
  {
    assert |multiset(a)| == |multiset(b)|;
  }

  lemma StableSortedStable(rs: seq<Record>) returns (from: seq<nat>)
    ensures Stable(rs, StableSorted(rs), from)
  {
    hide Of, PlacesOf, MessageParser.Ordered, Picked;
    StableSortedIs(rs);
    SameSize(rs, StableSorted(rs));
    OfPicked(Answer, rs);
    OfPicked(Authority, rs);
    OfPicked(Additional, rs);
    var a, b, c := PlacesOf(Answer, rs, 0), PlacesOf(Authority, rs, 0), PlacesOf(Additional, rs, 0);
    PickedBoth(rs, Of(Answer, rs), a, Of(Authority, rs), b);
    PickedBoth(rs, Of(Answer, rs) + Of(Authority, rs), a + b, Of(Additional, rs), c);
    from := a + b + c;
  }

  /** No plain record of the same section stands before this one, nor is it one itself. */
  predicate Leading(rs: seq<Record>, i: nat)
    requires i < |rs|
  {
    forall j :: 0 <= j <= i && rs[j].place == rs[i].place ==> rs[j].qtype == CNAME
  }

  /** Authority records, and the CNAMEs that lead a section, are where they were. */
  ghost predicate Steady(a: seq<Record>, b: seq<Record>)
  {
    |a| == |b| && forall i: nat :: i < |a| && (a[i].place == Authority || Leading(a, i)) ==> b[i] == a[i]
  }

  /** The records in section order, of which no more than the records behind a section's leading CNAMEs have
      changed places. */
  ghost predicate Arranged(rs: seq<Record>, out: seq<Record>)
  {
    exists sorted: seq<Record>, from: seq<nat> ::
      Stable(rs, sorted, from) && Reshuffled(sorted, out) && Steady(sorted, out)
  }

  /** random_shuffle on positions first to second, with the random numbers given. */
  method RandomShuffle(rrs0: seq<Record>, first: nat, second: nat, random: nat -> nat) returns (rrs: seq<Record>)
    requires first <= second <= |rrs0| && forall i, j :: first <= i < j < second ==> rrs0[i].place == rrs0[j].place
    ensures Reshuffled(rrs0, rrs)
    ensures forall i :: 0 <= i < |rrs0| && !(first <= i < second) ==> rrs[i] == rrs0[i]
  {
    hide MessageParser.Ordered;
    rrs := rrs0;
    var i := first + 1;
    while i < second
      invariant first < i && Reshuffled(rrs0, rrs)
      invariant forall k :: 0 <= k < |rrs0| && !(first <= k < second) ==> rrs[k] == rrs0[k]
    {
      var j := first + random(i) % (i - first + 1);
      SwapReshuffles(rrs0, rrs, i, j);
      rrs := rrs[i := rrs[j]][j := rrs[i]];
      i := i + 1;
    }
  }

  /** From a position on, the first record of a section that is no CNAME. */
  method FirstPlain(rrs: seq<Record>, p: Place, from: nat) returns (first: nat)
    requires from <= |rrs|
    ensures from <= first <= |rrs| && (first < |rrs| ==> rrs[first].place == p && rrs[first].qtype != CNAME)
    ensures forall i :: from <= i < first ==> rrs[i].place != p || rrs[i].qtype == CNAME
  {
    first := from;
    while first < |rrs| && !(rrs[first].place == p && rrs[first].qtype != CNAME)
      invariant from <= first <= |rrs|
      invariant forall i :: from <= i < first ==> rrs[i].place != p || rrs[i].qtype == CNAME
    {
      first := first + 1;
    }
  }

  /** From a position on, the end of the run of one section. */
  method RunOf(rrs: seq<Record>, p: Place, from: nat) returns (second: nat)
    requires from <= |rrs|
    ensures from <= second <= |rrs| && (second < |rrs| ==> rrs[second].place != p)
    ensures forall i :: from <= i < second ==> rrs[i].place == p
  {
    second := from;
    while second < |rrs| && rrs[second].place == p
      invariant from <= second <= |rrs|
      invariant forall i :: from <= i < second ==> rrs[i].place == p
    {
      second := second + 1;
    }
  }

  lemma ReshuffledTwice(a: seq<Record>, b: seq<Record>, c: seq<Record>)
    requires Reshuffled(a, b) && Reshuffled(b, c)
    ensures Reshuffled(a, c)
  {
  }

  /** shuffle: the answers from the first that is no CNAME on, and then likewise the additional records. */
  method Shuffle(rrs0: seq<Record>, random: nat -> nat) returns (rrs: seq<Record>)
    ensures Reshuffled(rrs0, rrs) && Steady(rrs0, rrs)
  {
    hide Reshuffled, Steady;
    rrs := rrs0;
    Unshuffled(rrs);
    var first := FirstPlain(rrs, Answer, 0);
    var second := RunOf(rrs, Answer, first);
    if second - first > 1 {
      rrs := RandomShuffle(rrs, first, second, random);
      SameLength(rrs0, rrs);
      SteadyStep(rrs0, rrs0, rrs, Answer, first, second);
    }
    first := FirstPlain(rrs, Additional, second);
    second := RunOf(rrs, Additional, first);
    if second - first > 1 {
      var once := rrs;
      rrs := RandomShuffle(rrs, first, second, n => random(second + n));
      SteadyStep(rrs0, once, rrs, Additional, first, second);
      ReshuffledTwice(rrs0, once, rrs);
    }
  }

  /** A shuffle of a run that begins with a plain record leaves what leads its section. */
  lemma SteadyStep(a: seq<Record>, b: seq<Record>, c: seq<Record>, p: Place, first: nat, second: nat)
    requires Reshuffled(a, b) && Steady(a, b) && Reshuffled(b, c) && p != Authority && first < second <= |b|
    requires forall i :: first <= i < second ==> b[i].place == p
    requires forall i :: 0 <= i < |b| && !(first <= i < second) ==> c[i] == b[i]
    requires b[first].qtype != CNAME && b[first] == a[first]
    ensures Steady(a, c)
  {
    forall i: nat | i < |a| && (a[i].place == Authority || Leading(a, i))
      ensures c[i] == a[i]
    {
      assert a[i].place == b[i].place && a[first].place == p && a[first].qtype != CNAME;
    }
  }

  lemma Unshuffled(rs: seq<Record>)
    ensures Reshuffled(rs, rs) && Steady(rs, rs)
  {
  }

  lemma SameLength(a: seq<Record>, b: seq<Record>)
    requires Reshuffled(a, b)
    ensures |a| == |b|
  {
  }

  method OrderAndShuffle(rrs0: seq<Record>, random: nat -> nat) returns (rrs: seq<Record>)
    ensures multiset(rrs) == multiset(rrs0) && MessageParser.Ordered(rrs) && Arranged(rrs0, rrs)
  {
    hide StableSorted, MessageParser.Ordered, Stable, Steady;
    var sorted := StableSorted(rrs0);
    StableSortedIs(rrs0);
    ghost var from := StableSortedStable(rrs0);
    rrs := Shuffle(sorted, random);
    OrderedAgain(sorted, rrs);
  }

  // ---- the packing loop ----

  /** What can be packed: good names everywhere, and every record has data. */
  ghost predicate Packable(q: Question, rs: seq<Record>)
  {
    && GoodName(q.name)
    && (forall i :: 0 <= i < |rs| ==> GoodRecord(rs[i]) && MessageParser.SomeData(rs[i].rdata, |rs[i].rdata|))
  }

  predicate AnswerAmong(rs: seq<Record>, from: nat)
  {
    exists i :: from <= i < |rs| && rs[i].place == Answer
  }

  /** Flag bytes: qr, tc and rd; ra and rcode. */
  function Flags(tc: bool, rd: bool): (b: byte)
  {
    0x80 + (if tc then 2 else 0) + (if rd then 1 else 0)
  }

  lemma PackableAs(q: Question, a: seq<Record>, b: seq<Record>)
    requires Packable(q, a) && multiset(a) == multiset(b)
    ensures Packable(q, b)
  {
    forall i | 0 <= i < |b| ensures GoodRecord(b[i]) && MessageParser.SomeData(b[i].rdata, |b[i].rdata|) {
      assert b[i] in multiset(b);
      assert b[i] in a;
    }
  }

  lemma NoLater(rs: seq<Record>, n: nat)
    requires MessageParser.Ordered(rs) && n < |rs|
    ensures AnswerAmong(rs, n) <==> rs[n].place == Answer
  {
  }

  lemma WireComplete(pw: DNSPacketWriter)
    requires pw.Wire() && !pw.Open() && !pw.canonic
    ensures Complete(pw.content, pw.question, pw.questionEnd, pw.records, pw.layout)
    ensures Firm(pw.frame, pw.content, pw.question, pw.questionEnd, pw.records, pw.layout)
    ensures |pw.content| >= 12 && Concise(Base(pw.content), pw.records, pw.layout)
  {
    hide Complete, Firm, Concise;
    ConcisePacket(pw.frame, pw.content, pw.question, pw.questionEnd, pw.records, pw.layout);
  }

  /** The open record's place in the content, and what stands before it. */
  lemma OpenFacts(pw: DNSPacketWriter)
    requires pw.Valid() && pw.Open()
    ensures pw.Wire() && 12 <= pw.rollbackMarker < |pw.content| && pw.Finished() == pw.content[..pw.rollbackMarker]
    ensures pw.Finished()[..6] == pw.content[..6]
  {
    hide Complete, PendingAt, NameWriter.MapOk;
  }

  lemma RecordOk(q: Question, rs: seq<Record>, n: nat)
    requires Packable(q, rs) && n < |rs|
    ensures GoodRecord(rs[n]) && GoodName(rs[n].name) && MessageParser.SomeData(rs[n].rdata, |rs[n].rdata|)
  {
    hide MessageParser.SomeData;
  }

  /** The first n records fit and no more do. */
  predicate Longest(q: Question, rs: seq<Record>, n: nat, maxanswersize: nat)
  {
    n <= |rs| && forall m :: 0 <= m <= |rs| ==> (m <= n <==> MessageParser.PacketSize(q.name, rs, m) <= maxanswersize)
  }

  lemma LongestIs(q: Question, rs: seq<Record>, n: nat, maxanswersize: nat)
    requires n <= |rs| && MessageParser.PacketSize(q.name, rs, n) <= maxanswersize
    requires n < |rs| ==> MessageParser.PacketSize(q.name, rs, n + 1) > maxanswersize
    ensures Longest(q, rs, n, maxanswersize)
  {
    hide MessageParser.PacketSize;
    forall m | 0 <= m <= |rs|
      ensures m <= n <==> MessageParser.PacketSize(q.name, rs, m) <= maxanswersize
    {
      if m < n {
        MessageParser.PacketGrows(q.name, rs, m, n);
      } else if n + 1 < m {
        MessageParser.PacketGrows(q.name, rs, n + 1, m);
      }
    }
  }

  /** The loop over the sorted records; k of them are in the packet at the end, as many as fit. */
  method PackRecords(pw: DNSPacketWriter, ghost q: Question, rs: seq<Record>, maxanswersize: nat) returns (k: nat)
    requires pw.Valid() && !pw.Open() && pw.records == [] && pw.question == q && Packable(q, rs)
    requires !pw.canonic && pw.Drafted() == FirstDraft(q.name)
    requires |pw.content| <= maxanswersize <= 65535
    modifies pw
    ensures k <= |rs| && pw.Wire() && !pw.Open() && !pw.canonic && pw.records == rs[..k]
    ensures 12 <= |pw.content| <= maxanswersize
    ensures |old(pw.content)| >= 12 && pw.content[..6] == old(pw.content[..6])
    ensures |pw.content| == MessageParser.PacketSize(q.name, rs, k) && Longest(q, rs, k, maxanswersize)
  {
    hide Labels, GoodName, NameWriter.Encoded, DNSPacketWriter.Valid, DNSPacketWriter.Wire, MessageParser.SomeData,
         MessageParser.PlainRecord, Packable, GoodRecord, Committed, MessageParser.RecordDraft, FirstDraft, Longest;
    var n := 0;
    MessageParser.ValidFacts(pw);
    while n < |rs|
      invariant n <= |rs| && pw.Valid() && |pw.content| >= 12 && pw.content[..6] == old(pw.content[..6])
      invariant if n == 0 then !pw.Open() && pw.records == []
                else pw.Open() && pw.records == rs[..n - 1] && pw.current == rs[n - 1] && pw.record != []
      invariant pw.Bulk() <= maxanswersize && !pw.canonic && pw.question == q
      invariant pw.Drafted() == MessageParser.MessageDraft(q.name, rs, n)
    {
      RecordOk(q, rs, n);
      MessageParser.MessageDraftStep(q.name, rs, n);
      assert n > 0 ==> rs[..n] == rs[..n - 1] + [rs[n - 1]];
      ghost var before := MessageParser.WriteRecord(pw, rs[n]);
      if pw.Size() > maxanswersize {
        OpenFacts(pw);
        pw.Rollback();
        LongestIs(q, rs, n, maxanswersize);
        return n;
      }
      n := n + 1;
    }
    if rs != [] {
      pw.Commit();
      assert rs[..n] == rs[..n - 1] + [rs[n - 1]];
    }
    MessageParser.ValidFacts(pw);
    LongestIs(q, rs, n, maxanswersize);
    k := n;
  }

  /** The packet begins with this identification and these flag bytes. */
  predicate Head(packet: seq<byte>, id: u16, flags: byte, flags2: byte)
  {
    |packet| >= 4 && packet[..2] == U16(id) && packet[2] == flags && packet[3] == flags2
  }

  lemma HeadKept(a: seq<byte>, b: seq<byte>, id: u16, flags: byte, flags2: byte)
    requires Head(a, id, flags, flags2) && |a| >= 6 && |b| >= 6 && a[..6] == b[..6]
    ensures Head(b, id, flags, flags2)
  {
    assert a[..2] == a[..6][..2] && b[..2] == b[..6][..2];
    assert a[..6][2] == a[2] && b[..6][2] == b[2] && a[..6][3] == a[3] && b[..6][3] == b[3];
  }

  lemma HeadSet(id: u16, flags: byte, flags2: byte, rest: seq<byte>)
    ensures Head(U16(id) + [flags, flags2] + rest, id, flags, flags2)
  {
  }

  lemma HeadTruncated(packet: seq<byte>, id: u16, tc: bool, rd: bool, flags2: byte)
    requires |packet| >= 12 && Head(packet, id, Flags(tc, rd), flags2)
    ensures MessageParser.Truncated(packet) <==> tc
  {
    hide U16;
  }

  /** The head in numbers: QR and RA are set, opcode and AA are not; the low four bits of the fourth byte are
      the result, 2 (ServFail) if there is none. */
  lemma HeadNumbers(packet: seq<byte>, id: u16, tc: bool, rd: bool, res: int)
    requires Head(packet, id, Flags(tc, rd), Rcode(res))
    ensures |packet| >= 4 && Number(packet[..2]) == id
    ensures packet[2] == (if tc then 130 else 128) + (if rd then 1 else 0)
    ensures packet[3] == 128 + if res < 0 then 2 else res % 16
  {
    NumberU16(id);
    hide U16, Number;
  }

  /** Sets identification and flags of a packet without an open record. */
  method SetHead(pw: DNSPacketWriter, id: u16, flags: byte, flags2: byte)
    requires pw.Wire() && !pw.Open() && |pw.content| >= 12
    modifies pw`content
    ensures pw.Wire() && (old(pw.Valid()) ==> pw.Valid()) && |pw.content| == |old(pw.content)|
    ensures pw.Drafted() == old(pw.Drafted())
    ensures Head(pw.content, id, flags, flags2)
  {
    hide DNSPacketWriter.Valid, DNSPacketWriter.Wire, U16, Head;
    HeadSet(id, flags, flags2, pw.content[4..]);
    pw.SetFlags(id, flags, flags2);
  }

  /** A response without records. */
  method Begin(q: Question, id: u16, flags: byte, flags2: byte) returns (pw: DNSPacketWriter)
    requires GoodName(q.name)
    ensures fresh(pw) && pw.Valid() && !pw.Open() && pw.records == [] && pw.question == q && !pw.canonic
    ensures pw.Drafted() == FirstDraft(q.name) && |pw.content| == MessageParser.PlainQuestion(q)
    ensures |pw.content| >= 12 && Head(pw.content, id, flags, flags2)
  {
    hide Labels, GoodName, NameWriter.Encoded, DNSPacketWriter.Valid, DNSPacketWriter.Wire, U16, FirstDraft, Head;
    pw := new DNSPacketWriter(q.name, q.qtype, q.qclass, 0);
    MessageParser.ValidFacts(pw);
    SetHead(pw, id, flags, flags2);
  }

  /** The answer part of startDoResolve: the response to a question, given what resolving it yielded.
      The packet holds the first k records of `sorted`, as many as fit. */
  method Respond(q: Question, id: u16, rd: bool, res: int, ret: seq<Record>, maxanswersize: nat, random: nat -> nat)
    returns (packet: seq<byte>, ghost sorted: seq<Record>, ghost k: nat, ghost qend: nat, ghost lay: seq<Slot>,
             ghost frame: Image)
    requires Packable(q, ret) && GoodName(q.name) && MessageParser.PlainQuestion(q) <= maxanswersize <= 65535
    ensures multiset(sorted) == multiset(if res < 0 then [] else ret) && MessageParser.Ordered(sorted)
    ensures k <= |sorted| && Complete(packet, q, qend, sorted[..k], lay) && 12 <= |packet| <= maxanswersize
    ensures Firm(frame, packet, q, qend, sorted[..k], lay) && Concise(Base(packet), sorted[..k], lay)
    ensures MessageParser.Truncated(packet) <==> AnswerAmong(sorted, k)
    ensures |packet| == MessageParser.PacketSize(q.name, sorted, k) && Longest(q, sorted, k, maxanswersize)
    ensures Arranged(if res < 0 then [] else ret, sorted)
    ensures Head(packet, id, Flags(AnswerAmong(sorted, k), rd), Rcode(res))
    ensures Number(packet[..2]) == id
    ensures packet[2] == (if AnswerAmong(sorted, k) then 130 else 128) + (if rd then 1 else 0)
    ensures packet[3] == 128 + if res < 0 then 2 else res % 16
  {
    hide Labels, GoodName, NameWriter.Encoded, DNSPacketWriter.Valid, DNSPacketWriter.Wire, Complete, Firm,
         MessageParser.PacketSize, MessageParser.Ordered, Packable, GoodRecord, U16, FirstDraft, Longest, Head,
         Arranged, Concise;
    var pw := Begin(q, id, Flags(false, rd), Rcode(res));
    var rs: seq<Record> := [];
    if res >= 0 && ret != [] {
      rs := OrderAndShuffle(ret, random);
      PackableAs(q, ret, rs);
    } else {
      NothingToPack(q);
      assert (if res < 0 then [] else ret) == [];
    }
    sorted := rs;
    ghost var begun := pw.content;
    var n := PackRecords(pw, q, rs, maxanswersize);
    HeadKept(begun, pw.content, id, Flags(false, rd), Rcode(res));
    k := n;
    if n < |rs| {
      NoLater(rs, n);
      if rs[n].place == Answer {
        SetHead(pw, id, Flags(true, rd), Rcode(res));
      }
    }
    WireComplete(pw);
    HeadTruncated(pw.content, id, AnswerAmong(rs, n), rd, Rcode(res));
    HeadNumbers(pw.content, id, AnswerAmong(rs, n), rd, res);
    packet, qend, lay, frame := pw.content, pw.questionEnd, pw.layout, pw.frame;
  }

  function Rcode(res: int): (b: byte)
  {
    0x80 + (if res < 0 then 2 else res % 16)
  }

  lemma NothingToPack(q: Question)
    requires GoodName(q.name)
    ensures Packable(q, []) && MessageParser.Ordered([]) && Arranged([], [])
  {
    assert Stable([], [], []) && Reshuffled([], []) && Steady([], []);
  }
}
