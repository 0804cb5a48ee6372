/** ageDNSPacket: lowers the TTLs of a packet in place. */
module Ageing {
  import opened Bytes
  import opened Wire

  const HEADER := 12

  // ---- the places that change, read off the packet ----

  /** Where the record section starts, after n questions; -1 if they run off the packet. */
  function QuestionsEnd(p: seq<byte>, pos: nat, n: nat): (e: int)
    ensures e == -1 || pos <= e
    decreases n
  {
    if n == 0 then pos
    else
      var e := NameEnd(p, pos);
      if e < 0 || e + 4 > |p| then -1 else QuestionsEnd(p, e + 4, n - 1)
  }

  /** Whether the TTL of the record at pos is lowered: its name, type, class and TTL lie within the
      packet, and it is no OPT. */
  predicate HasTtl(p: seq<byte>, pos: nat)
  {
    var e := NameEnd(p, pos);
    0 <= e && e + 4 <= |p| && Get16(p[e], p[e + 1]) != OPT && e + 8 <= |p|
  }

  /** The end of the record at pos by its length field; -1 if it runs off the packet. */
  function RecordEnd(p: seq<byte>, pos: nat): (e: int)
    requires HasTtl(p, pos)
    ensures e == -1 || pos < NameEnd(p, pos) + 10 <= e <= |p|
  {
    var e := NameEnd(p, pos);
    if e + 10 > |p| then -1
    else
      var end := e + 10 + Get16(p[e + 8], p[e + 9]);
      if end > |p| then -1 else end
  }

  /** The places of the TTLs of at most n records from pos on, up to the first OPT or the first record
      that does not fit. */
  function Spots(p: seq<byte>, pos: nat, n: nat): (s: seq<nat>)
    ensures forall i :: 0 <= i < |s| ==> pos + 5 <= s[i] && s[i] + 4 <= |p|
    ensures forall i, j :: 0 <= i < j < |s| ==> s[i] + 4 < s[j]
    decreases n
  {
    if n == 0 || !HasTtl(p, pos) then []
    else
      var end := RecordEnd(p, pos);
      [NameEnd(p, pos) + 4] + (if end < 0 then [] else Spots(p, end, n - 1))
  }

  function Count(p: seq<byte>, at: nat): (n: u16)
    requires at + 2 <= |p|
  {
    Get16(p[at], p[at + 1])
  }

  function AllSpots(p: seq<byte>): (s: seq<nat>)
    ensures forall i :: 0 <= i < |s| ==> HEADER + 5 <= s[i] && s[i] + 4 <= |p|
    ensures forall i, j :: 0 <= i < j < |s| ==> s[i] + 4 < s[j]
  {
    if |p| < HEADER then []
    else
      var start := QuestionsEnd(p, HEADER, Count(p, 4));
      if start < 0 then [] else Spots(p, start, Total(p))
  }

  function Total(p: seq<byte>): (n: nat)
    requires |p| >= HEADER
  {
    var an: int, ns: int, ar: int := Count(p, 6), Count(p, 8), Count(p, 10);
    an + ns + ar
  }

  // ---- the packet after ageing ----

  function Ttl(p: seq<byte>, at: nat): (t: u32)
    requires at + 4 <= |p|
  {
    Get32(p[at], p[at + 1], p[at + 2], p[at + 3])
  }

  /** Subtraction in 32 bits. */
  function Minus(t: u32, seconds: u32): (r: u32)
  {
    (t - seconds) % 0x1_0000_0000
  }

  function LowerAt(p: seq<byte>, at: nat, seconds: u32): (r: seq<byte>)
    requires at + 4 <= |p|
    ensures |r| == |p|
  {
    p[..at] + U32(Minus(Ttl(p, at), seconds)) + p[at + 4..]
  }

  /** The first n spots lowered. */
  function Lowered(p: seq<byte>, spots: seq<nat>, n: nat, seconds: u32): (r: seq<byte>)
    requires n <= |spots| && forall i :: 0 <= i < |spots| ==> spots[i] + 4 <= |p|
    ensures |r| == |p|
  {
    if n == 0 then p else LowerAt(Lowered(p, spots, n - 1, seconds), spots[n - 1], seconds)
  }

  function Aged(p: seq<byte>, seconds: u32): (r: seq<byte>)
    ensures |r| == |p|
  {
    Lowered(p, AllSpots(p), |AllSpots(p)|, seconds)
  }

  /** Whether byte i belongs to a TTL that changes. */
  ghost predicate InSpot(spots: seq<nat>, i: nat)
  {
    exists k :: 0 <= k < |spots| && spots[k] <= i < spots[k] + 4
  }

  ghost predicate Apart(spots: seq<nat>)
  {
    forall i, j :: 0 <= i < j < |spots| ==> spots[i] + 4 < spots[j]
  }

  lemma LowerAtIs(p: seq<byte>, at: nat, seconds: u32, i: nat)
    requires at + 4 <= |p| && i < |p|
    ensures i < at || at + 4 <= i ==> LowerAt(p, at, seconds)[i] == p[i]
    ensures Ttl(LowerAt(p, at, seconds), at) == Minus(Ttl(p, at), seconds)
  {
    var v := Minus(Ttl(p, at), seconds);
    var u := U32(v);
    var r := LowerAt(p, at, seconds);
    assert r[at] == u[0] && r[at + 1] == u[1] && r[at + 2] == u[2] && r[at + 3] == u[3];
    Get32Inverts(v);
  }

  lemma {:induction false} LoweredIs(p: seq<byte>, spots: seq<nat>, n: nat, seconds: u32, i: nat, k: nat)
    requires n <= |spots| && Apart(spots) && forall j :: 0 <= j < |spots| ==> spots[j] + 4 <= |p|
    requires k < |spots|
    ensures i < |p| && !InSpot(spots[..n], i) ==> Lowered(p, spots, n, seconds)[i] == p[i]
    ensures Ttl(Lowered(p, spots, n, seconds), spots[k])
         == if k < n then Minus(Ttl(p, spots[k]), seconds) else Ttl(p, spots[k])
    decreases n
  {
    hide LowerAt, Minus, Ttl;
    if n > 0 {
      LoweredIs(p, spots, n - 1, seconds, i, k);
      var q := Lowered(p, spots, n - 1, seconds);
      if i < |p| {
        LowerAtIs(q, spots[n - 1], seconds, i);
        assert spots[..n][n - 1] == spots[n - 1];
        InMore(spots, n, i);
      }
      SameTtl(q, spots, n - 1, seconds, k);
    }
  }

  lemma InMore(spots: seq<nat>, n: nat, i: nat)
    requires 0 < n <= |spots|
    ensures InSpot(spots[..n - 1], i) ==> InSpot(spots[..n], i)
  {
    if InSpot(spots[..n - 1], i) {
      var k := SpotOf(spots[..n - 1], i);
      assert spots[..n][k] == spots[k];
    }
  }

  lemma SameTtl(q: seq<byte>, spots: seq<nat>, m: nat, seconds: u32, k: nat)
    requires m < |spots| && k < |spots| && Apart(spots) && forall j :: 0 <= j < |spots| ==> spots[j] + 4 <= |q|
    ensures Ttl(LowerAt(q, spots[m], seconds), spots[k])
         == if k == m then Minus(Ttl(q, spots[m]), seconds) else Ttl(q, spots[k])
  {
    hide LowerAt, Minus;
    var a, b := spots[k], spots[m];
    assert k != m ==> a + 4 < b || b + 4 < a;
    LowerAtIs(q, b, seconds, a);
    LowerAtIs(q, b, seconds, a + 1);
    LowerAtIs(q, b, seconds, a + 2);
    LowerAtIs(q, b, seconds, a + 3);
  }

  /** Ageing keeps the length and every byte outside the listed TTLs, and lowers those by the given
      seconds modulo 2^32. */
  lemma AgedIs(p: seq<byte>, seconds: u32)
    ensures |Aged(p, seconds)| == |p|
    ensures forall i :: 0 <= i < |p| && !InSpot(AllSpots(p), i) ==> Aged(p, seconds)[i] == p[i]
    ensures forall k :: 0 <= k < |AllSpots(p)| ==>
      Ttl(Aged(p, seconds), AllSpots(p)[k]) == Minus(Ttl(p, AllSpots(p)[k]), seconds)
  {
    hide AllSpots, Lowered, Ttl, Minus, InSpot;
    var spots := AllSpots(p);
    assert spots[..|spots|] == spots;
    if |spots| > 0 {
      forall i | 0 <= i < |p| && !InSpot(spots, i)
        ensures Aged(p, seconds)[i] == p[i]
      {
        LoweredIs(p, spots, |spots|, seconds, i, 0);
      }
      forall k | 0 <= k < |spots|
        ensures Ttl(Aged(p, seconds), spots[k]) == Minus(Ttl(p, spots[k]), seconds)
      {
        LoweredIs(p, spots, |spots|, seconds, 0, k);
      }
    } else {
      LoweredNone(p, spots, seconds);
    }
  }

  lemma LoweredNone(p: seq<byte>, spots: seq<nat>, seconds: u32)
    requires spots == []
    ensures Lowered(p, spots, 0, seconds) == p
  {
  }

  // ---- the spots do not depend on the TTLs ----

  lemma {:induction false} NameEndLocal(p: seq<byte>, q: seq<byte>, pos: nat)
    requires |p| == |q|
    requires forall i :: pos <= i < |p| && (NameEnd(p, pos) < 0 || i < NameEnd(p, pos)) ==> p[i] == q[i]
    ensures NameEnd(q, pos) == NameEnd(p, pos)
    decreases Room(p, pos)
  {
    if pos < |p| {
      assert p[pos] == q[pos];
      if 0 < p[pos] < 0xc0 {
        NameEndLocal(p, q, pos + 1 + p[pos]);
      }
    }
  }

  /** q is p with other TTLs at the spots found from pos on. */
  ghost predicate Same(p: seq<byte>, q: seq<byte>, spots: seq<nat>, pos: nat)
  {
    |p| == |q| && forall i :: pos <= i < |p| && !InSpot(spots, i) ==> p[i] == q[i]
  }

  lemma HeadFree(spots: seq<nat>, low: nat, i: nat)
    requires i < low && forall k :: 0 <= k < |spots| ==> low <= spots[k]
    ensures !InSpot(spots, i)
  {
  }

  lemma NoSpots(p: seq<byte>, pos: nat)
    ensures Spots(p, pos, 0) == []
  {
  }

  lemma SpotsCases(p: seq<byte>, pos: nat, n: nat)
    requires n > 0
    ensures !HasTtl(p, pos) ==> Spots(p, pos, n) == []
    ensures HasTtl(p, pos) ==>
      var s := Spots(p, pos, n);
      && |s| > 0 && s[0] == NameEnd(p, pos) + 4
      && s[1..] == if RecordEnd(p, pos) >= 0 then Spots(p, RecordEnd(p, pos), n - 1) else []
  {
    hide NameEnd, HasTtl, RecordEnd;
  }

  lemma {:induction false} SpotsSame(p: seq<byte>, q: seq<byte>, pos: nat, n: nat)
    requires Same(p, q, Spots(p, pos, n), pos)
    ensures Spots(q, pos, n) == Spots(p, pos, n)
    decreases n
  {
    hide *;
    if n == 0 {
      NoSpots(p, pos);
      NoSpots(q, pos);
    } else {
      SpotsCases(p, pos, n);
      SpotsCases(q, pos, n);
      NameSame(p, q, pos, n);
      if HasTtl(p, pos) {
        TailFixed(p, q, pos, n);
        var end := RecordEnd(p, pos);
        if end >= 0 {
          TailSame(p, q, pos, n);
          SpotsSame(p, q, end, n - 1);
        }
        var s, t := Spots(p, pos, n), Spots(q, pos, n);
        assert s == [s[0]] + s[1..] && t == [t[0]] + t[1..];
      }
    }
  }

  /** Name, type, class and what follows the TTL are the same. */
  lemma NameSame(p: seq<byte>, q: seq<byte>, pos: nat, n: nat)
    requires n > 0 && Same(p, q, Spots(p, pos, n), pos)
    ensures NameEnd(q, pos) == NameEnd(p, pos) && HasTtl(q, pos) == HasTtl(p, pos)
  {
    hide InSpot;
    var spots := Spots(p, pos, n);
    var e := NameEnd(p, pos);
    forall i | pos <= i < |p| && (e < 0 || i < e + 4)
      ensures p[i] == q[i]
    {
      FirstSpot(p, pos, n);
      HeadFree(spots, if e < 0 then |p| else e + 4, i);
    }
    NameEndLocal(p, q, pos);
  }

  lemma FirstSpot(p: seq<byte>, pos: nat, n: nat)
    ensures NameEnd(p, pos) < 0 ==> Spots(p, pos, n) == []
    ensures forall k :: 0 <= k < |Spots(p, pos, n)| ==> NameEnd(p, pos) + 4 <= Spots(p, pos, n)[k]
  {
    hide NameEnd;
  }

  lemma TailFixed(p: seq<byte>, q: seq<byte>, pos: nat, n: nat)
    requires n > 0 && HasTtl(p, pos) && HasTtl(q, pos) && NameEnd(q, pos) == NameEnd(p, pos)
    requires Same(p, q, Spots(p, pos, n), pos)
    ensures RecordEnd(q, pos) == RecordEnd(p, pos)
  {
    hide NameEnd, InSpot;
    var spots := Spots(p, pos, n);
    var e := NameEnd(p, pos);
    if e + 10 <= |p| {
      NotTtl(p, pos, n, e + 8);
      NotTtl(p, pos, n, e + 9);
    }
  }

  /** The two bytes after the TTL are in no spot. */
  lemma NotTtl(p: seq<byte>, pos: nat, n: nat, i: nat)
    requires n > 0 && HasTtl(p, pos) && NameEnd(p, pos) + 8 <= i < NameEnd(p, pos) + 10 <= |p|
    ensures !InSpot(Spots(p, pos, n), i)
  {
    hide NameEnd;
  }

  lemma InRest(first: nat, rest: seq<nat>, i: nat)
    requires first + 4 <= i
    ensures InSpot([first] + rest, i) ==> InSpot(rest, i)
  {
    if k :| 0 <= k < |[first] + rest| && ([first] + rest)[k] <= i < ([first] + rest)[k] + 4 {
      assert k > 0 && rest[k - 1] == ([first] + rest)[k];
    }
  }

  lemma TailSame(p: seq<byte>, q: seq<byte>, pos: nat, n: nat)
    requires n > 0 && HasTtl(p, pos) && RecordEnd(p, pos) >= 0 && Same(p, q, Spots(p, pos, n), pos)
    ensures Same(p, q, Spots(p, RecordEnd(p, pos), n - 1), RecordEnd(p, pos))
  {
    hide NameEnd;
    var spots, rest := Spots(p, pos, n), Spots(p, RecordEnd(p, pos), n - 1);
    assert spots == [NameEnd(p, pos) + 4] + rest;
    forall i | RecordEnd(p, pos) <= i < |p| && !InSpot(rest, i)
      ensures p[i] == q[i]
    {
      InRest(NameEnd(p, pos) + 4, rest, i);
    }
  }

  lemma {:induction false} QuestionsSame(p: seq<byte>, q: seq<byte>, pos: nat, n: nat)
    requires |p| == |q|
    requires forall i :: pos <= i < |p| && (QuestionsEnd(p, pos, n) < 0 || i < QuestionsEnd(p, pos, n)) ==> p[i] == q[i]
    ensures QuestionsEnd(q, pos, n) == QuestionsEnd(p, pos, n)
    decreases n
  {
    hide NameEnd;
    if n > 0 {
      NameEndLocal(p, q, pos);
      var e := NameEnd(p, pos);
      if 0 <= e && e + 4 <= |p| {
        QuestionsSame(p, q, e + 4, n - 1);
      }
    }
  }

  /** With other TTLs a packet has its TTLs at the same places. */
  lemma AllSpotsSame(p: seq<byte>, q: seq<byte>)
    requires Same(p, q, AllSpots(p), 0)
    ensures AllSpots(q) == AllSpots(p)
  {
    hide QuestionsEnd, Spots, InSpot;
    if |p| >= HEADER {
      var spots := AllSpots(p);
      forall i | 0 <= i < HEADER ensures p[i] == q[i] {
        HeadFree(spots, HEADER, i);
      }
      var start := QuestionsEnd(p, HEADER, Count(p, 4));
      forall i | HEADER <= i < |p| && (start < 0 || i < start) ensures p[i] == q[i] {
        HeadFree(spots, if start < 0 then |p| else start, i);
      }
      QuestionsSame(p, q, HEADER, Count(p, 4));
      if start >= 0 {
        SpotsSame(p, q, start, Total(p));
      }
    }
  }

  lemma AgedSpots(p: seq<byte>, seconds: u32)
    ensures AllSpots(Aged(p, seconds)) == AllSpots(p)
  {
    hide AllSpots, Aged, InSpot;
    AgedIs(p, seconds);
    AllSpotsSame(p, Aged(p, seconds));
  }

  lemma MinusTwice(t: u32, a: u32, b: u32)
    ensures Minus(Minus(t, a), b) == Minus(t, (a + b) % 0x1_0000_0000)
  {
  }

  lemma TtlBytes(p: seq<byte>, q: seq<byte>, at: nat, i: nat)
    requires |p| == |q| && at + 4 <= |p| && at <= i < at + 4 && Ttl(p, at) == Ttl(q, at)
    ensures p[i] == q[i]
  {
    Get32Bytes(p[at], p[at + 1], p[at + 2], p[at + 3]);
    Get32Bytes(q[at], q[at + 1], q[at + 2], q[at + 3]);
    hide Get32, U32;
  }

  /** Ageing by a and then by b is ageing by their sum, for every packet, well formed or not. */
  lemma AgeTwice(p: seq<byte>, a: u32, b: u32)
    ensures Aged(Aged(p, a), b) == Aged(p, (a + b) % 0x1_0000_0000)
  {
    hide AllSpots, Aged, Ttl, Minus, InSpot;
    var sum: u32 := (a + b) % 0x1_0000_0000;
    var q := Aged(p, a);
    var r, s := Aged(q, b), Aged(p, sum);
    var spots := AllSpots(p);
    AgedSpots(p, a);
    AgedIs(p, a);
    AgedIs(q, b);
    AgedIs(p, sum);
    forall i | 0 <= i < |p|
      ensures r[i] == s[i]
    {
      if InSpot(spots, i) {
        var k := SpotOf(spots, i);
        MinusTwice(Ttl(p, spots[k]), a, b);
        TtlBytes(r, s, spots[k], i);
      }
    }
  }

  lemma SpotOf(spots: seq<nat>, i: nat) returns (k: nat)
    requires InSpot(spots, i)
    ensures k < |spots| && spots[k] <= i < spots[k] + 4
  {
    k :| 0 <= k < |spots| && spots[k] <= i < spots[k] + 4;
  }

  // ---- records as the reader sees them ----

  /** Where the records from the i-th on have their TTLs, up to the first OPT. */
  function TtlPlaces(p: seq<byte>, rs: seq<Record>, lay: seq<Slot>, i: nat): (r: seq<int>)
    requires i <= |rs| == |lay|
    decreases |rs| - i
  {
    if i == |rs| || rs[i].qtype == OPT then [] else [NameEnd(p, lay[i].start) + 4] + TtlPlaces(p, rs, lay, i + 1)
  }

  lemma HeaderFacts(p: seq<byte>, e: nat, r: Record, clen: u16)
    requires BytesAt(p, e, RecordHeader(r, clen))
    ensures e + 10 <= |p| && Get16(p[e], p[e + 1]) == r.qtype && Ttl(p, e + 4) == r.ttl
    ensures Get16(p[e + 8], p[e + 9]) == clen
  {
    hide U16, U32, Get16, Get32;
    var h := RecordHeader(r, clen);
    var t, u, c := U16(r.qtype), U32(r.ttl), U16(clen);
    assert h[0] == t[0] && h[1] == t[1];
    assert h[4] == u[0] && h[5] == u[1] && h[6] == u[2] && h[7] == u[3];
    assert h[8] == c[0] && h[9] == c[1];
    assert p[e + 0] == h[0] && p[e + 1] == h[1];
    assert p[e + 4] == h[4] && p[e + 5] == h[5] && p[e + 6] == h[6] && p[e + 7] == h[7];
    assert p[e + 8] == h[8] && p[e + 9] == h[9];
    Get16Inverts(r.qtype);
    Get32Inverts(r.ttl);
    Get16Inverts(clen);
  }

  lemma SlotFacts(p: seq<byte>, at: Slot, r: Record)
    requires RecordAt(p, at, r)
    ensures
      var e := NameEnd(p, at.start);
      && HasTtl(p, at.start) == (r.qtype != OPT)
      && 0 <= e && e + 4 + 4 <= |p| && Ttl(p, e + 4) == r.ttl
      && (r.qtype != OPT ==> RecordEnd(p, at.start) == at.end)
  {
    hide NameEnd, NamedAt, FieldsAt, GoodRecord, RecordHeader, BytesAt, Ttl, Get16;
    var e := NameEnd(p, at.start);
    HeaderFacts(p, e, r, at.end - e - 10);
  }

  lemma SpotsStep(p: seq<byte>, pos: nat, n: nat)
    requires n > 0
    ensures !HasTtl(p, pos) ==> Spots(p, pos, n) == []
    ensures HasTtl(p, pos) && RecordEnd(p, pos) >= 0 ==>
      Spots(p, pos, n) == [NameEnd(p, pos) + 4] + Spots(p, RecordEnd(p, pos), n - 1)
  {
    hide NameEnd, HasTtl, RecordEnd;
  }

  lemma CountedSlots(p: seq<byte>, pos: nat, rs: seq<Record>, lay: seq<Slot>)
    requires RecordsAt(p, pos, rs, lay)
    ensures |lay| == |rs|
  {
  }

  lemma SlotOf(p: seq<byte>, pos: nat, rs: seq<Record>, lay: seq<Slot>, i: nat)
    requires RecordsAt(p, pos, rs, lay) && i < |rs|
    ensures |lay| == |rs| && RecordAt(p, lay[i], rs[i])
    ensures LastEnd(pos, lay, i) == lay[i].start && LastEnd(pos, lay, i + 1) == lay[i].end
  {
    hide RecordAt;
  }

  lemma PlacesStep(p: seq<byte>, rs: seq<Record>, lay: seq<Slot>, i: nat)
    requires i <= |rs| == |lay|
    ensures TtlPlaces(p, rs, lay, i)
      == if i == |rs| || rs[i].qtype == OPT then [] else [NameEnd(p, lay[i].start) + 4] + TtlPlaces(p, rs, lay, i + 1)
  {
    hide NameEnd;
  }

  /** The mangler finds the TTLs where the reader's records have them: record by record, up to the
      first OPT. */
  lemma {:induction false} SpotsOfRecords(p: seq<byte>, pos: nat, rs: seq<Record>, lay: seq<Slot>, i: nat)
    requires RecordsAt(p, pos, rs, lay) && i <= |rs|
    ensures Spots(p, LastEnd(pos, lay, i), |rs| - i) == TtlPlaces(p, rs, lay, i)
    decreases |rs| - i
  {
    hide *;
    CountedSlots(p, pos, rs, lay);
    PlacesStep(p, rs, lay, i);
    if i < |rs| {
      SlotOf(p, pos, rs, lay, i);
      SlotFacts(p, lay[i], rs[i]);
      SpotsStep(p, lay[i].start, |rs| - i);
      if rs[i].qtype != OPT {
        SpotsOfRecords(p, pos, rs, lay, i + 1);
      }
    } else {
      NoSpots(p, LastEnd(pos, lay, i));
    }
  }

  // ---- the code ----

  class DNSPacketMangler {
    const packet: array<byte>
    var offset: nat

    constructor (p: array<byte>)
      ensures packet == p && offset == HEADER
    {
      packet, offset := p, HEADER;
    }

    /** False stands for the std::out_of_range it throws. */
    method MoveOffset(n: u16) returns (ok: bool)
      modifies this`offset
      ensures offset == old(offset) + n && ok == (offset <= packet.Length)
    {
      offset := offset + n;
      return offset <= packet.Length;
    }

    method Get8BitInt() returns (ok: bool, v: byte)
      modifies this`offset
      ensures offset == old(offset) + 1 && ok == (offset <= packet.Length) && (ok ==> v == packet[old(offset)])
    {
      v := 0;
      ok := MoveOffset(1);
      if ok {
        v := packet[offset - 1];
      }
    }

    method Get16BitInt() returns (ok: bool, v: u16)
      modifies this`offset
      ensures offset == old(offset) + 2 && ok == (offset <= packet.Length)
      ensures ok ==> v == Get16(packet[old(offset)], packet[old(offset) + 1])
    {
      v := 0;
      ok := MoveOffset(2);
      if ok {
        v := Get16(packet[offset - 2], packet[offset - 1]);
      }
    }

    /** skipLabel ends where the reader's rule says the name ends. */
    method SkipLabel() returns (ok: bool)
      modifies this`offset
      ensures ok == (NameEnd(packet[..], old(offset)) >= 0)
      ensures ok ==> offset == NameEnd(packet[..], old(offset))
    {
      while true
        invariant NameEnd(packet[..], offset) == NameEnd(packet[..], old(offset))
        decreases packet.Length - offset
      {
        var len;
        ok, len := Get8BitInt();
        if !ok {
          return;
        }
        if len == 0 {
          return true;
        }
        if len >= 0xc0 {
          ok, len := Get8BitInt();
          return;
        }
        ok := MoveOffset(len);
        if !ok {
          return;
        }
      }
    }

    method DecreaseAndSkip32BitInt(decrease: u32) returns (ok: bool)
      modifies this`offset, packet
      ensures offset == old(offset) + 4 && ok == (offset <= packet.Length)
      ensures packet[..] == if ok then LowerAt(old(packet[..]), old(offset), decrease) else old(packet[..])
    {
      ok := MoveOffset(4);
      if !ok {
        return;
      }
      var at := offset - 4;
      var tmp := Get32(packet[at], packet[at + 1], packet[at + 2], packet[at + 3]);
      CopyIn(packet, at, U32(Minus(tmp, decrease)));
    }

    method SkipRData() returns (ok: bool)
      modifies this`offset
      ensures
        var at := old(offset);
        if at + 2 <= packet.Length && at + 2 + Get16(packet[at], packet[at + 1]) <= packet.Length
        then ok && offset == at + 2 + Get16(packet[at], packet[at + 1])
        else !ok
    {
      var toskip;
      ok, toskip := Get16BitInt();
      if ok {
        ok := MoveOffset(toskip);
      }
    }

    /** One turn of the loop over the records. */
    method AgeRecord(seconds: u32) returns (more: bool)
      modifies this`offset, packet
      ensures
        var p, pos := old(packet[..]), old(offset);
        && packet[..] == (if HasTtl(p, pos) then LowerAt(p, NameEnd(p, pos) + 4, seconds) else p)
        && more == (HasTtl(p, pos) && RecordEnd(p, pos) >= 0)
        && (more ==> offset == RecordEnd(p, pos))
    {
      hide NameEnd, LowerAt, Get16, Get32, U32, Minus;
      ghost var p := packet[..];
      var ok := SkipLabel();
      if !ok {
        return false;
      }
      var dnstype, dnsclass;
      ok, dnstype := Get16BitInt();
      if !ok {
        return false;
      }
      ok, dnsclass := Get16BitInt();
      if !ok || dnstype == OPT {
        return false;
      }
      ok := DecreaseAndSkip32BitInt(seconds);
      if !ok {
        return false;
      }
      LowerAtIs(p, offset - 4, seconds, if offset < |p| then offset else 0);
      LowerAtIs(p, offset - 4, seconds, if offset + 1 < |p| then offset + 1 else 0);
      more := SkipRData();
    }
  }

  /** After n records: n TTLs are lowered, the packet from pos on is untouched, and at most m records
      with the remaining TTLs are to come. */
  ghost predicate Walk(p: seq<byte>, q: seq<byte>, spots: seq<nat>, n: nat, pos: nat, m: nat, seconds: u32)
  {
    && Apart(spots) && (forall i :: 0 <= i < |spots| ==> spots[i] + 4 <= |p|)
    && n <= |spots| && q == Lowered(p, spots, n, seconds)
    && Spots(p, pos, m) == spots[n..]
    && (forall i :: pos <= i < |p| ==> q[i] == p[i])
  }

  lemma WalkStart(p: seq<byte>, spots: seq<nat>, pos: nat, m: nat, seconds: u32)
    requires spots == Spots(p, pos, m)
    ensures Walk(p, p, spots, 0, pos, m, seconds)
  {
    hide Spots;
    assert spots[0..] == spots;
  }

  lemma WalkEnd(p: seq<byte>, q: seq<byte>, spots: seq<nat>, n: nat, pos: nat, seconds: u32)
    requires Walk(p, q, spots, n, pos, 0, seconds)
    ensures q == Lowered(p, spots, |spots|, seconds)
  {
    hide Lowered;
    assert n == |spots|;
  }

  lemma RecordLocal(p: seq<byte>, q: seq<byte>, pos: nat)
    requires |p| == |q| && forall i :: pos <= i < |p| ==> q[i] == p[i]
    ensures NameEnd(q, pos) == NameEnd(p, pos) && HasTtl(q, pos) == HasTtl(p, pos)
    ensures HasTtl(p, pos) ==> RecordEnd(q, pos) == RecordEnd(p, pos)
  {
    NameEndLocal(p, q, pos);
  }

  lemma WalkStep(p: seq<byte>, q: seq<byte>, spots: seq<nat>, n: nat, pos: nat, m: nat, seconds: u32)
    requires Walk(p, q, spots, n, pos, m, seconds) && m > 0
    ensures HasTtl(q, pos) ==>
      var r := LowerAt(q, NameEnd(q, pos) + 4, seconds);
      if RecordEnd(q, pos) >= 0 then Walk(p, r, spots, n + 1, RecordEnd(q, pos), m - 1, seconds)
      else r == Lowered(p, spots, |spots|, seconds)
    ensures !HasTtl(q, pos) ==> q == Lowered(p, spots, |spots|, seconds)
  {
    hide NameEnd, LowerAt, HasTtl, RecordEnd, Spots;
    RecordLocal(p, q, pos);
    SpotsCases(p, pos, m);
    if HasTtl(p, pos) {
      assert spots[n..][0] == spots[n] == NameEnd(p, pos) + 4;
      var r := LowerAt(q, spots[n], seconds);
      assert r == Lowered(p, spots, n + 1, seconds);
      assert spots[n..][1..] == spots[n + 1..];
      var end := RecordEnd(p, pos);
      if end >= 0 {
        forall i | end <= i < |p| ensures r[i] == p[i] {
          LowerAtIs(q, spots[n], seconds, i);
        }
      }
    }
  }

  lemma QuestionsStep(p: seq<byte>, pos: nat, n: nat)
    requires n > 0
    ensures QuestionsEnd(p, pos, n)
         == (var e := NameEnd(p, pos); if e < 0 || e + 4 > |p| then -1 else QuestionsEnd(p, e + 4, n - 1))
  {
    hide NameEnd;
  }

  lemma QuestionsDone(p: seq<byte>, pos: nat)
    ensures QuestionsEnd(p, pos, 0) == pos
  {
  }

  lemma AgedCases(p: seq<byte>, seconds: u32)
    ensures |p| < HEADER ==> Aged(p, seconds) == p
    ensures |p| >= HEADER ==>
      var start := QuestionsEnd(p, HEADER, Count(p, 4));
      if start < 0 then Aged(p, seconds) == p
      else
        var spots := Spots(p, start, Total(p));
        Aged(p, seconds) == Lowered(p, spots, |spots|, seconds)
  {
    hide QuestionsEnd, Spots;
    LoweredNone(p, [], seconds);
  }

  /** ageDNSPacket; what it throws inside ends it silently, with the TTLs before that lowered. */
  method AgeDNSPacket(packet: array<byte>, seconds: u32)
    modifies packet
    ensures packet[..] == Aged(old(packet[..]), seconds)
  {
    hide Spots, QuestionsEnd, NameEnd, Walk, LowerAt, HasTtl, RecordEnd, Lowered, Get16;
    ghost var p := packet[..];
    AgedCases(p, seconds);
    if packet.Length < HEADER {
      return;
    }
    var qdcount := Get16(packet[4], packet[5]);
    var an: int, ns: int, ar: int := Get16(packet[6], packet[7]), Get16(packet[8], packet[9]),
                                     Get16(packet[10], packet[11]);
    var numrecords := an + ns + ar;
    var dpm := new DNSPacketMangler(packet);
    var n := 0;
    while n < qdcount
      invariant dpm.packet == packet && packet[..] == p && n <= qdcount
      invariant QuestionsEnd(p, dpm.offset, qdcount - n) == QuestionsEnd(p, HEADER, qdcount)
    {
      QuestionsStep(p, dpm.offset, qdcount - n);
      var ok := dpm.SkipLabel();
      if ok {
        ok := dpm.MoveOffset(4);
      }
      if !ok {
        return;
      }
      n := n + 1;
    }
    ghost var spots := Spots(p, dpm.offset, numrecords);
    QuestionsDone(p, dpm.offset);
    n := 0;
    WalkStart(p, spots, dpm.offset, numrecords, seconds);
    while n < numrecords
      invariant dpm.packet == packet && n <= numrecords
      invariant Walk(p, packet[..], spots, n, dpm.offset, numrecords - n, seconds)
    {
      WalkStep(p, packet[..], spots, n, dpm.offset, numrecords - n, seconds);
      var more := dpm.AgeRecord(seconds);
      if !more {
        return;
      }
      n := n + 1;
    }
    WalkEnd(p, packet[..], spots, n, dpm.offset, seconds);
  }
}
