/** Transaction signatures, section 3.4 of RFC 2845: what addTSIG signs, and what the verifier rebuilds
    from the packet it receives. */
module Tsig {
  import opened Bytes
  import opened Names
  import opened Wire
  import opened NameWriter
  import opened PacketWriter
  import opened MessageReader
  import opened RecordReader
  import MessageParser

  const ANYCLASS: u16 := 0xff

  /** TSIGRecordContent. */
  datatype Trc = Trc(algoName: seq<byte>, time: int, fudge: u16, mac: seq<byte>, origID: u16, eRcode: u16,
                     otherData: seq<byte>)

  predicate GoodTrc(trc: Trc)
  {
    GoodName(trc.algoName) && 0 <= trc.time < 0x1_0000_0000_0000 && |trc.mac| < 0x10000 && |trc.otherData| < 0x10000
  }

  function Plain8(name: seq<byte>): (r: seq<byte>)
    requires GoodName(name)
  {
    Encoded(Labels(name), 0)
  }

  /** The signed variables that follow the message; the time is cut to 32 bits. */
  function SignVector(keyname: seq<byte>, trc: Trc, timersonly: bool): (r: seq<byte>)
    requires GoodName(keyname) && GoodTrc(trc)
  {
    (if timersonly then [] else Plain8(keyname) + U16(ANYCLASS) + U32(0) + Plain8(trc.algoName))
    + U48(trc.time % 0x1_0000_0000) + U16(trc.fudge)
    + (if timersonly then [] else U16(trc.eRcode) + U16(|trc.otherData|))
  }

  /** The previous MAC, preceded by its length, if there is one. */
  function Previous(previous: seq<byte>): (r: seq<byte>)
  {
    if previous == [] then [] else U16(|previous| % 0x10000) + previous
  }

  function ToSign(content: seq<byte>, keyname: seq<byte>, trc: Trc, previous: seq<byte>,
                  timersonly: bool): (r: seq<byte>)
    requires GoodName(keyname) && GoodTrc(trc)
  {
    Previous(previous) + content + SignVector(keyname, trc, timersonly)
  }

  /** The packet without its TSIG record: cut off, and the low byte of ARCOUNT decremented. */
  function Stripped(packet: seq<byte>, tsigOffset: nat, headerOffset: nat): (r: seq<byte>)
    requires headerOffset + 12 <= tsigOffset <= |packet|
    ensures |r| == tsigOffset
  {
    var p := packet[..tsigOffset];
    var low: int := p[headerOffset + 11];
    p[headerOffset + 11 := (low - 1) % 256]
  }

  /** makeTSIGMessageFromTSIGPacket. */
  function Rebuilt(packet: seq<byte>, tsigOffset: nat, keyname: seq<byte>, trc: Trc, previous: seq<byte>,
                   timersonly: bool, headerOffset: nat): (r: seq<byte>)
    requires GoodName(keyname) && GoodTrc(trc) && headerOffset + 12 <= tsigOffset <= |packet|
  {
    Previous(previous) + Stripped(packet, tsigOffset, headerOffset) + SignVector(keyname, trc, timersonly)
  }

  // ---- what is signed ----

  /** Part of a string. */
  function Part(s: seq<byte>, from: int, n: nat): (r: seq<byte>)
  {
    if 0 <= from && from + n <= |s| then s[from..from + n] else []
  }

  /** Read as section 3.4.2 of RFC 2845 lists the variables: key name up to e1, class, TTL, algorithm name up to
      e2, time, fudge, error, length of the other data; nothing else. */
  ghost predicate Variables(s: seq<byte>, key: seq<seq<byte>>, e1: int, algo: seq<seq<byte>>, e2: int, time: nat,
                            fudge: nat, error: nat, otherLength: nat)
  {
    && Decode(s, 0, 0) == Name(key) && e1 == NameEnd(s, 0) >= 0
    && Number(Part(s, e1, 2)) == 255 && Number(Part(s, e1 + 2, 4)) == 0
    && Decode(s, e1 + 6, 0) == Name(algo) && e2 == NameEnd(s, e1 + 6) >= 0
    && Numbers(s, e2, time, fudge, error, otherLength)
  }

  /** The numbers that end the string. */
  predicate Numbers(s: seq<byte>, at: int, time: nat, fudge: nat, error: nat, otherLength: nat)
  {
    && |s| == at + 12 && Number(Part(s, at, 6)) == time && Number(Part(s, at + 6, 2)) == fudge
    && Number(Part(s, at + 8, 2)) == error && Number(Part(s, at + 10, 2)) == otherLength
  }

  lemma NameThere(s: seq<byte>, before: seq<byte>, name: seq<byte>, after: seq<byte>)
    requires GoodName(name) && s == before + Plain8(name) + after
    ensures Decode(s, |before|, 0) == Name(Labels(name)) && NameEnd(s, |before|) == |before + Plain8(name)|
  {
    var ls := Labels(name);
    AlgoLabels(name);
    assert BytesAt(s, |before|, Encoded(ls, 0)) by {
      forall i | 0 <= i < |Encoded(ls, 0)|
        ensures s[|before| + i] == Encoded(ls, 0)[i]
      {
      }
    }
    EncodedDecode(s, |before|, ls, 0);
    assert ls[0..] == ls;
  }

  /** The signed variables can be read back from the string that follows the message. The time is cut to 32
      bits, and of the other data only the length is signed. */
  lemma SignedVariables(keyname: seq<byte>, trc: Trc) returns (e1: nat, e2: nat)
    requires GoodName(keyname) && GoodTrc(trc)
    ensures Variables(SignVector(keyname, trc, false), Labels(keyname), e1, Labels(trc.algoName), e2,
                      trc.time % 0x1_0000_0000, trc.fudge, trc.eRcode, |trc.otherData|)
  {
    NumberU48(trc.time % 0x1_0000_0000);
    NumberU16(trc.fudge);
    NumberU16(trc.eRcode);
    NumberU16(|trc.otherData|);
    NumberU16(ANYCLASS);
    NumberU32(0);
    SignPieces(keyname, trc);
    TrcName(trc);
    hide *;
    e1, e2 := VariablesFold(keyname, U16(ANYCLASS), U32(0), trc.algoName, U48(trc.time % 0x1_0000_0000),
                            U16(trc.fudge), U16(trc.eRcode), U16(|trc.otherData|));
  }

  lemma SignPieces(keyname: seq<byte>, trc: Trc)
    requires GoodName(keyname) && GoodTrc(trc)
    ensures SignVector(keyname, trc, false)
         == Plain8(keyname) + U16(ANYCLASS) + U32(0) + Plain8(trc.algoName)
            + (U48(trc.time % 0x1_0000_0000) + U16(trc.fudge) + U16(trc.eRcode) + U16(|trc.otherData|))
  {
    hide Plain8, U16, U32, U48, GoodName;
  }

  lemma VariablesFold(key: seq<byte>, qclass: seq<byte>, ttl: seq<byte>, algo: seq<byte>, time: seq<byte>,
                      fudge: seq<byte>, error: seq<byte>, length: seq<byte>) returns (e1: nat, e2: nat)
    requires GoodName(key) && GoodName(algo) && |time| == 6 && |fudge| == |error| == |length| == 2
    requires |qclass| == 2 && Number(qclass) == 255 && |ttl| == 4 && Number(ttl) == 0
    ensures Variables(Plain8(key) + qclass + ttl + Plain8(algo) + (time + fudge + error + length),
                      Labels(key), e1, Labels(algo), e2, Number(time), Number(fudge), Number(error), Number(length))
  {
    var head := Plain8(key) + qclass + ttl + Plain8(algo);
    hide *;
    TailNumbers(head, time, fudge, error, length);
    e1, e2 := TwoNames(key, qclass, ttl, algo, time + fudge + error + length);
    VariablesIs(head + (time + fudge + error + length), Labels(key), e1, Labels(algo), e2, qclass, ttl, Number(time),
                Number(fudge), Number(error), Number(length));
  }

  lemma HeadParts(k: seq<byte>, qclass: seq<byte>, ttl: seq<byte>, a: seq<byte>, tail: seq<byte>)
    requires |qclass| == 2 && |ttl| == 4
    ensures var s := k + qclass + ttl + a + tail; Part(s, |k|, 2) == qclass && Part(s, |k| + 2, 4) == ttl
  {
    var s := k + qclass + ttl + a + tail;
    assert s[|k|..|k| + 2] == qclass && s[|k| + 2..|k| + 6] == ttl;
  }

  lemma PartBehind(head: seq<byte>, tail: seq<byte>, k: nat, n: nat)
    requires k + n <= |tail|
    ensures Part(head + tail, |head| + k, n) == tail[k..k + n]
  {
  }

  lemma TailNumbers(head: seq<byte>, time: seq<byte>, fudge: seq<byte>, error: seq<byte>, length: seq<byte>)
    requires |time| == 6 && |fudge| == |error| == |length| == 2
    ensures Numbers(head + (time + fudge + error + length), |head|, Number(time), Number(fudge), Number(error),
                    Number(length))
  {
    hide Number, Part;
    var tail := time + fudge + error + length;
    TailSlices(time, fudge, error, length);
    PartBehind(head, tail, 0, 6);
    PartBehind(head, tail, 6, 2);
    PartBehind(head, tail, 8, 2);
    PartBehind(head, tail, 10, 2);
    assert |head + tail| == |head| + 12;
    NumbersFold(head + tail, |head|, time, fudge, error, length);
  }

  lemma TailSlices(time: seq<byte>, fudge: seq<byte>, error: seq<byte>, length: seq<byte>)
    requires |time| == 6 && |fudge| == |error| == |length| == 2
    ensures var tail := time + fudge + error + length;
            |tail| == 12 && tail[0..6] == time && tail[6..8] == fudge && tail[8..10] == error && tail[10..12] == length
  {
  }

  lemma NumbersFold(s: seq<byte>, at: nat, time: seq<byte>, fudge: seq<byte>, error: seq<byte>, length: seq<byte>)
    requires |s| == at + 12 && Part(s, at + 0, 6) == time && Part(s, at + 6, 2) == fudge
    requires Part(s, at + 8, 2) == error && Part(s, at + 10, 2) == length
    ensures Numbers(s, at, Number(time), Number(fudge), Number(error), Number(length))
  {
    hide Number, Part;
  }

  lemma TwoNames(key: seq<byte>, qclass: seq<byte>, ttl: seq<byte>, algo: seq<byte>, tail: seq<byte>)
    returns (e1: nat, e2: nat)
    requires GoodName(key) && GoodName(algo) && |qclass| == 2 && |ttl| == 4
    ensures var s := Plain8(key) + qclass + ttl + Plain8(algo) + tail;
            && Decode(s, 0, 0) == Name(Labels(key)) && NameEnd(s, 0) == e1
            && Decode(s, e1 + 6, 0) == Name(Labels(algo)) && NameEnd(s, e1 + 6) == e2
            && Part(s, e1, 2) == qclass && Part(s, e1 + 2, 4) == ttl
    ensures e2 == |Plain8(key) + qclass + ttl + Plain8(algo)|
  {
    hide Decode, NameEnd, Labels, GoodName, Encoded, Plain8, Part;
    var k, a := Plain8(key), Plain8(algo);
    var s := k + qclass + ttl + a + tail;
    assert s == [] + k + (qclass + ttl + a + tail);
    NameThere(s, [], key, qclass + ttl + a + tail);
    NameThere(s, k + qclass + ttl, algo, tail);
    HeadParts(k, qclass, ttl, a, tail);
    e1, e2 := |k|, |k| + 6 + |a|;
  }

  lemma VariablesIs(s: seq<byte>, key: seq<seq<byte>>, e1: nat, algo: seq<seq<byte>>, e2: nat, qclass: seq<byte>,
                    ttl: seq<byte>, time: nat, fudge: nat, error: nat, length: nat)
    requires NameEnd(s, 0) == e1 && Decode(s, 0, 0) == Name(key)
    requires NameEnd(s, e1 + 6) == e2 && Decode(s, e1 + 6, 0) == Name(algo)
    requires Part(s, e1, 2) == qclass && Number(qclass) == 255 && Part(s, e1 + 2, 4) == ttl && Number(ttl) == 0
    requires Numbers(s, e2, time, fudge, error, length)
    ensures Variables(s, key, e1, algo, e2, time, fudge, error, length)
  {
    hide Decode, NameEnd, Number, Part, Numbers;
  }

  /** With timersonly exactly the time and the fudge are signed. */
  lemma SignedTimers(keyname: seq<byte>, trc: Trc)
    requires GoodName(keyname) && GoodTrc(trc)
    ensures var s := SignVector(keyname, trc, true);
            && |s| == 8 && Number(s[..6]) == trc.time % 0x1_0000_0000 && Number(s[6..]) == trc.fudge
  {
    NumberU48(trc.time % 0x1_0000_0000);
    NumberU16(trc.fudge);
    hide U48, U16, Number;
    assert SignVector(keyname, trc, true) == U48(trc.time % 0x1_0000_0000) + U16(trc.fudge);
  }

  /** Behind the previous MAC, if there is one, with its length before it, and the message stand the variables. */
  lemma SignedWhole(content: seq<byte>, keyname: seq<byte>, trc: Trc, previous: seq<byte>, timersonly: bool)
    returns (head: seq<byte>)
    requires GoodName(keyname) && GoodTrc(trc)
    ensures ToSign(content, keyname, trc, previous, timersonly) == head + content + SignVector(keyname, trc, timersonly)
    ensures if previous == [] then head == [] else
              |head| == 2 + |previous| && Number(head[..2]) == |previous| % 0x10000 && head[2..] == previous
  {
    head := Previous(previous);
    NumberU16(|previous| % 0x10000);
    hide U16, Number;
  }

  /** Two signatures under the same message and previous MAC are over the same string only if the names have the
      same labels and all other variables agree, the time modulo 2^32. */
  lemma SameSigned(content: seq<byte>, previous: seq<byte>, k1: seq<byte>, t1: Trc, k2: seq<byte>, t2: Trc)
    requires GoodName(k1) && GoodTrc(t1) && GoodName(k2) && GoodTrc(t2)
    requires ToSign(content, k1, t1, previous, false) == ToSign(content, k2, t2, previous, false)
    ensures Labels(k1) == Labels(k2) && Labels(t1.algoName) == Labels(t2.algoName)
    ensures t1.time % 0x1_0000_0000 == t2.time % 0x1_0000_0000 && t1.fudge == t2.fudge && t1.eRcode == t2.eRcode
    ensures |t1.otherData| == |t2.otherData|
  {
    hide *;
    TrcName(t1);
    TrcName(t2);
    var e1, f1 := SignedVariables(k1, t1);
    var e2, f2 := SignedVariables(k2, t2);
    SignedTail(content, previous, k1, t1, k2, t2);
    VariablesOnce(SignVector(k1, t1, false), Labels(k1), e1, Labels(t1.algoName), f1, t1.time % 0x1_0000_0000,
                  t1.fudge, t1.eRcode, |t1.otherData|, Labels(k2), e2, Labels(t2.algoName), f2,
                  t2.time % 0x1_0000_0000, t2.fudge, t2.eRcode, |t2.otherData|);
  }

  lemma SignedTail(content: seq<byte>, previous: seq<byte>, k1: seq<byte>, t1: Trc, k2: seq<byte>, t2: Trc)
    requires GoodName(k1) && GoodTrc(t1) && GoodName(k2) && GoodTrc(t2)
    requires ToSign(content, k1, t1, previous, false) == ToSign(content, k2, t2, previous, false)
    ensures SignVector(k1, t1, false) == SignVector(k2, t2, false)
  {
    hide SignVector, Previous, GoodName, GoodTrc;
    SameTail(Previous(previous) + content, SignVector(k1, t1, false), SignVector(k2, t2, false));
  }

  lemma VariablesOnce(s: seq<byte>, k1: seq<seq<byte>>, e1: int, a1: seq<seq<byte>>, f1: int, time1: nat, fudge1: nat,
                      error1: nat, length1: nat, k2: seq<seq<byte>>, e2: int, a2: seq<seq<byte>>, f2: int, time2: nat,
                      fudge2: nat, error2: nat, length2: nat)
    requires Variables(s, k1, e1, a1, f1, time1, fudge1, error1, length1)
    requires Variables(s, k2, e2, a2, f2, time2, fudge2, error2, length2)
    ensures k1 == k2 && a1 == a2 && time1 == time2 && fudge1 == fudge2 && error1 == error2 && length1 == length2
  {
    hide Decode, NameEnd, Part, Number;
  }

  lemma SameTail(a: seq<byte>, b: seq<byte>, c: seq<byte>)
    requires a + b == a + c
    ensures b == c
  {
    assert (a + b)[|a|..] == b && (a + c)[|a|..] == c;
  }

  /** Taking one off the low byte undoes the writer's increment exactly if that did not carry. */
  lemma StripBump(content: seq<byte>, packet: seq<byte>)
    requires |content| >= 12 && |content| <= |packet| && packet[..|content|] == Bump(content, Additional)
    ensures Stripped(packet, |content|, 0) == content <==> content[11] != 255
  {
    var p := Bump(content, Additional);
    var s := Stripped(packet, |content|, 0);
    var hi: int, lo: int := content[10], content[11];
    var n := (256 * hi + lo + 1) % 0x10000;
    assert p[10] == n / 256 && p[11] == n % 256;
    assert forall i :: 0 <= i < |content| && i != 10 && i != 11 ==> s[i] == content[i];
    assert s[10] == n / 256 && s[11] == (n % 256 - 1) % 256;
    if lo != 255 {
      assert n == 256 * hi + (lo + 1);
      assert s == content;
    } else {
      assert n / 256 == (hi + 1) % 256;
      assert s[10] != content[10];
    }
  }

  // ---- names come back with the same labels ----

  lemma {:induction false} PartsRedot(s: seq<byte>, from: nat, pos: nat)
    requires from <= pos <= |s| && from < |s| && s[|s| - 1] != DOT
    ensures Parts(s + [DOT], from, pos) == Parts(s, from, pos)
    decreases |s| - pos
  {
    var t := s + [DOT];
    assert t[from..pos] == s[from..pos];
    if pos == |s| {
      assert Parts(t, pos + 1, pos + 1) == [];
    } else if s[pos] == DOT {
      PartsRedot(s, pos + 1, pos + 1);
    } else {
      PartsRedot(s, from, pos + 1);
    }
  }

  /** The text the reader shows for a plain name, and that text without its trailing dot, have the
      labels of the name. */
  lemma ShownLabels(s: seq<byte>)
    requires GoodName(s) && Plain(s)
    ensures var t := Present(Labels(s));
            && |t| > 0 && Labels(t) == Labels(s) && Labels(t[..|t| - 1]) == Labels(s)
            && GoodName(t) && GoodName(t[..|t| - 1])
  {
    var t := Present(Labels(s));
    if s == [DOT] || s == [] {
      assert t == [DOT] && t[..0] == [];
    } else {
      PartsSome(s, 0, 0);
      JoinParts(s, 0, 0);
      assert s[0..] == s;
      if s[|s| - 1] == DOT {
        assert t == s;
        PartsDedot(s, 0, 0);
        DotDot();
      } else {
        assert t == s + [DOT] && t[..|t| - 1] == s;
        PartsRedot(s, 0, 0);
      }
    }
  }

  lemma DotDot()
    ensures !GoodLabels(Tokens([DOT, DOT]))
  {
    var s := [DOT, DOT];
    assert Tokens(s) == [s[0..0]] + Parts(s, 1, 1);
    assert !GoodLabel(Tokens(s)[0]);
  }

  // ---- the record and how it is read ----

  const SHAPES: seq<Shape> := [DomainName, Fixed(6), Fixed(2), Counted16, Fixed(2), Fixed(2), Counted16]

  function Sized(data: seq<byte>): (r: seq<byte>)
    requires |data| < 0x10000
  {
    U16(|data|) + data
  }

  function Fields(trc: Trc): (fs: seq<Field>)
    requires GoodTrc(trc)
  {
    [Domain(trc.algoName, false), Blob(U48(trc.time)), Blob(U16(trc.fudge)), Blob(Sized(trc.mac)),
     Blob(U16(trc.origID)), Blob(U16(trc.eRcode)), Blob(Sized(trc.otherData))]
  }

  function TsigRecord(keyname: seq<byte>, trc: Trc): (r: Record)
    requires GoodTrc(trc)
  {
    Record(keyname, TSIG, ANYCLASS, 0, Additional, Fields(trc))
  }

  lemma SizedIs(data: seq<byte>)
    requires |data| < 0x10000
    ensures var s := Sized(data); |s| == 2 + |data| && Number(s[..2]) == |data| && s[2..] == data
  {
    NumberU16(|data|);
    hide U16, Number;
  }

  /** The record as section 2.3 of RFC 2845 lays it out: type 250, class 255, TTL 0, and the fields in order. */
  lemma TsigRecordIs(keyname: seq<byte>, trc: Trc)
    requires GoodTrc(trc)
    ensures var r := TsigRecord(keyname, trc);
            && r.name == keyname && r.qtype == 250 && r.qclass == 255 && r.ttl == 0 && r.place == Additional
            && |r.rdata| == 7 && r.rdata[0] == Domain(trc.algoName, false)
            && (forall i :: 1 <= i < 7 ==> r.rdata[i].Blob?)
            && Number(r.rdata[1].data) == trc.time && |r.rdata[1].data| == 6
            && Number(r.rdata[2].data) == trc.fudge && |r.rdata[2].data| == 2
            && r.rdata[3].data == Sized(trc.mac)
            && Number(r.rdata[4].data) == trc.origID && |r.rdata[4].data| == 2
            && Number(r.rdata[5].data) == trc.eRcode && |r.rdata[5].data| == 2
            && r.rdata[6].data == Sized(trc.otherData)
  {
    NumberU48(trc.time);
    NumberU16(trc.fudge);
    NumberU16(trc.origID);
    NumberU16(trc.eRcode);
    hide U16, U48, Number, Sized, GoodName;
  }

  function Get48(s: seq<byte>): (v: int)
    requires |s| == 6
  {
    var hi: int := Get16(s[0], s[1]);
    0x1_0000_0000 * hi + Get32(s[2], s[3], s[4], s[5])
  }

  lemma Get48Inverts(v: int)
    requires 0 <= v < 0x1_0000_0000_0000
    ensures Get48(U48(v)) == v
  {
    var s, hi, lo := U48(v), v / 0x1_0000_0000, v % 0x1_0000_0000;
    var a, b := U16(hi), U32(lo);
    assert s[0] == a[0] && s[1] == a[1] && s[2] == b[0] && s[3] == b[1] && s[4] == b[2] && s[5] == b[3];
    Get16Inverts(hi);
    Get32Inverts(lo);
    hide U16, U32, Get16, Get32;
  }

  /** The content of a TSIG record as parsed. */
  function TrcOf(items: seq<Item>): (r: Option<Trc>)
  {
    if |items| == 7 && items[0].Text? && (forall i :: 1 <= i < 7 ==> items[i].Raw?)
      && |items[1].data| == 6 && |items[2].data| == 2 && |items[3].data| >= 2 && |items[4].data| == 2
      && |items[5].data| == 2 && |items[6].data| >= 2
    then
      Some(Trc(items[0].text, Get48(items[1].data), Get16(items[2].data[0], items[2].data[1]), items[3].data[2..],
               Get16(items[4].data[0], items[4].data[1]), Get16(items[5].data[0], items[5].data[1]),
               items[6].data[2..]))
    else None
  }

  datatype Details = Details(trc: Trc, keyname: seq<byte>)

  /** The last answer of type TSIG; |answers| if there is none. */
  function LastTsig(answers: seq<MessageParser.Entry>, n: nat): (i: nat)
    requires n <= |answers|
    ensures i <= |answers|
  {
    if n == 0 then |answers| else if answers[n - 1].record.qtype == TSIG then n - 1 else LastTsig(answers, n - 1)
  }

  /** getTSIGDetails: content and key name, the latter without its last character. */
  function GetDetails(m: MessageParser.Message): (d: Option<Details>)
  {
    var i := LastTsig(m.answers, |m.answers|);
    if m.tsigPos == 0 || i == |m.answers| then None
    else
      var rec := m.answers[i].record;
      match TrcOf(rec.items)
      case None => None
      case Some(trc) => Some(Details(trc, if rec.name == [] then [] else rec.name[..|rec.name| - 1]))
  }

  // ---- what the signer leaves behind ----

  /** The packet after addTSIG: the message as it was but for ARCOUNT, then one TSIG record. */
  ghost predicate Signed(content: seq<byte>, packet: seq<byte>, q: Question, qend: nat, rs: seq<Record>, lay: seq<Slot>,
                         keyname: seq<byte>, trc: Trc, low: bool)
  {
    && 12 <= |content| <= |packet| && CountsAre(content, rs) && GoodTrc(trc) && GoodName(keyname)
    && packet[..|content|] == Bump(content, Additional)
    && Complete(packet, q, qend, rs + [TsigRecord(keyname, trc)], lay)
    && lay != [] && lay[|lay| - 1].start == |content|
    && NamedLow(Base(packet), |content|, Labels(keyname), Budget(Labels(keyname)), low)
    && NameEnd(Base(packet), |content|) >= 0
    && BytesAt(Base(packet), NameEnd(Base(packet), |content|) + 10, Plain8(trc.algoName))
  }

  lemma LowerExact(a: seq<seq<byte>>, b: seq<seq<byte>>)
    requires SameLabels(a, b) && LowerLabels(a) && LowerLabels(b)
    ensures a == b
  {
    assert LowerAll(a) == a && LowerAll(b) == b;
  }

  /** A lower-case name in lower-case surroundings is read exactly. */
  lemma NameExact(content: seq<byte>, at: nat, name: seq<byte>)
    requires NamedLow(Img(content), 12 + at, Labels(name), Budget(Labels(name)), true)
    requires ShortName(name) && LowerName(name)
    ensures var r := ReadText(content, at);
            r.Got? && r.value == Present(Labels(name)) && 12 + r.pos == NameEnd(Img(content), 12 + at)
  {
    var ls, img := Labels(name), Img(content);
    NameReads(content, at, name);
    DecodeMore(img, 12 + at, Budget(ls), HOPS);
    LowerNameLabels(name);
    LowerExact(Decode(img, 12 + at, HOPS).labels, ls);
    TextIsPresent(ls);
  }

  /** An uncompressed name is read exactly. */
  lemma PlainExact(content: seq<byte>, at: nat, name: seq<byte>)
    requires GoodName(name) && GoodLabels(Labels(name)) && BytesAt(Img(content), 12 + at, Plain8(name))
    ensures var r := ReadText(content, at); r.Got? && r.value == Present(Labels(name))
  {
    var ls, img := Labels(name), Img(content);
    EncodedDecode(img, 12 + at, ls, 0);
    assert ls[0..] == ls;
    DecodeMore(img, 12 + at, 0, HOPS);
    DecodeEnd(img, 12 + at, HOPS);
    TextIsPresent(ls);
  }

  lemma {:induction false} ItemsKept(content: seq<byte>, pos: nat, shapes: seq<Shape>, items: seq<Item>, start: nat,
                                     clen: u16)
    requires |items| <= |shapes| && ReadItems(content, pos, shapes, items, start, clen).Got?
    ensures items <= ReadItems(content, pos, shapes, items, start, clen).value
    decreases |shapes| - |items|
  {
    hide ReadItem;
    if |items| < |shapes| {
      match ReadItem(content, pos, shapes[|items|], start, clen)
      case Got(i, p) => ItemsKept(content, p, shapes, items + [i], start, clen);
    }
  }

  predicate Registered(types: TypeMap)
  {
    (ANYCLASS, TSIG) in types && types[(ANYCLASS, TSIG)] == SHAPES
  }

  lemma SizedFits(data: seq<byte>)
    requires |data| < 0x10000
    ensures Fits(Blob(Sized(data)), Counted16)
  {
    var s := U16(|data|);
    Get16Inverts(|data|);
    hide Get16;
    assert Sized(data)[0] == s[0] && Sized(data)[1] == s[1];
  }

  lemma TsigReadable(keyname: seq<byte>, trc: Trc, types: TypeMap)
    requires GoodTrc(trc) && Registered(types) && ShortName(keyname) && ShortName(trc.algoName)
    ensures Readable(TsigRecord(keyname, trc), types)
  {
    var r := TsigRecord(keyname, trc);
    SizedFits(trc.mac);
    SizedFits(trc.otherData);
    hide Sized, U16, U48, ShortName;
    forall i | 0 <= i < 7 ensures Fits(r.rdata[i], SHAPES[i]) {
    }
  }

  /** The items of the record give back its content, but for the spelling of the algorithm name. */
  lemma TrcReads(items: seq<Item>, trc: Trc)
    requires GoodTrc(trc) && |items| == 7
    requires forall i :: 0 <= i < 7 ==> ItemMatches(items[i], Fields(trc)[i])
    ensures items[0].Text? && TrcOf(items) == Some(trc.(algoName := items[0].text))
  {
    FieldsAre(trc);
    hide Fields, ReadsAs, TrcOf, Sized, GoodTrc;
    assert items[0].Text?;
    assert items[1] == Raw(U48(trc.time)) && items[2] == Raw(U16(trc.fudge)) && items[3] == Raw(Sized(trc.mac))
      && items[4] == Raw(U16(trc.origID)) && items[5] == Raw(U16(trc.eRcode)) && items[6] == Raw(Sized(trc.otherData));
    RawItems(items, trc);
  }

  lemma RawItems(items: seq<Item>, trc: Trc)
    requires GoodTrc(trc) && |items| == 7 && items[0].Text?
    requires items[1] == Raw(U48(trc.time)) && items[2] == Raw(U16(trc.fudge)) && items[3] == Raw(Sized(trc.mac))
      && items[4] == Raw(U16(trc.origID)) && items[5] == Raw(U16(trc.eRcode)) && items[6] == Raw(Sized(trc.otherData))
    ensures TrcOf(items) == Some(trc.(algoName := items[0].text))
  {
    Get48Inverts(trc.time);
    Get16Inverts(trc.fudge);
    Get16Inverts(trc.origID);
    Get16Inverts(trc.eRcode);
    SizedRest(trc.mac);
    SizedRest(trc.otherData);
    hide U16, U48, Get16, Get48, Sized, GoodName;
    assert forall i :: 1 <= i < 7 ==> items[i].Raw?;
  }

  lemma SizedRest(data: seq<byte>)
    requires |data| < 0x10000
    ensures |Sized(data)| == 2 + |data| && Sized(data)[2..] == data
  {
  }

  lemma FieldsAre(trc: Trc)
    requires GoodTrc(trc)
    ensures |Fields(trc)| == 7 && Fields(trc)[0] == Domain(trc.algoName, false)
    ensures Fields(trc)[1] == Blob(U48(trc.time)) && Fields(trc)[2] == Blob(U16(trc.fudge))
    ensures Fields(trc)[3] == Blob(Sized(trc.mac))
    ensures Fields(trc)[4] == Blob(U16(trc.origID)) && Fields(trc)[5] == Blob(U16(trc.eRcode))
    ensures Fields(trc)[6] == Blob(Sized(trc.otherData))
  {
  }

  lemma TrcName(trc: Trc)
    requires GoodTrc(trc)
    ensures GoodName(trc.algoName)
  {
  }

  /** The record at the end of a signed packet, read by itself. */
  lemma TsigReads(content: seq<byte>, pos: nat, keyname: seq<byte>, trc: Trc, types: TypeMap, at: Slot)
    requires at.start == 12 + pos && GoodTrc(trc) && GoodName(keyname)
    requires RecordAt(Img(content), at, TsigRecord(keyname, trc)) && Readable(TsigRecord(keyname, trc), types)
    requires Registered(types)
    requires NamedLow(Img(content), 12 + pos, Labels(keyname), Budget(Labels(keyname)), true)
    requires LowerName(keyname) && ShortName(keyname) && GoodLabels(Labels(trc.algoName))
    requires NameEnd(Img(content), 12 + pos) >= 0
    requires BytesAt(Img(content), NameEnd(Img(content), 12 + pos) + 10, Plain8(trc.algoName))
    ensures
      var r := ReadRecord(content, pos, types);
      && r.Got? && r.value.name == Present(Labels(keyname)) && r.value.qtype == TSIG
      && TrcOf(r.value.items) == Some(trc.(algoName := Present(Labels(trc.algoName))))
  {
    TrcName(trc);
    hide *;
    RecordReads(content, at, TsigRecord(keyname, trc), types);
    NameExact(content, pos, keyname);
    TsigItems(content, pos, keyname, trc, types);
  }

  lemma TsigItems(content: seq<byte>, pos: nat, keyname: seq<byte>, trc: Trc, types: TypeMap)
    requires GoodTrc(trc) && GoodName(trc.algoName) && GoodName(keyname) && Registered(types)
    requires GoodLabels(Labels(trc.algoName))
    requires ReadText(content, pos).Got? && ReadText(content, pos).value == Present(Labels(keyname))
    requires 12 + ReadText(content, pos).pos == NameEnd(Img(content), 12 + pos)
    requires BytesAt(Img(content), NameEnd(Img(content), 12 + pos) + 10, Plain8(trc.algoName))
    requires ReadRecord(content, pos, types).Got?
    requires RecordMatches(ReadRecord(content, pos, types).value, TsigRecord(keyname, trc))
    ensures
      var r := ReadRecord(content, pos, types);
      && r.value.name == Present(Labels(keyname)) && r.value.qtype == TSIG
      && TrcOf(r.value.items) == Some(trc.(algoName := Present(Labels(trc.algoName))))
  {
    hide *;
    MatchFacts(ReadRecord(content, pos, types).value, keyname, trc);
    RecordParts(content, pos, types);
    AlgoItem(content, pos, ReadText(content, pos).pos, trc.algoName, types);
  }

  lemma AlgoItem(content: seq<byte>, pos: nat, p: nat, algo: seq<byte>, types: TypeMap)
    requires GoodName(algo) && GoodLabels(Labels(algo)) && Registered(types)
    requires ReadText(content, pos).Got? && ReadText(content, pos).pos == p
    requires BytesAt(Img(content), 12 + (p + 10), Plain8(algo))
    requires ReadRecord(content, pos, types).Got?
    requires var r := ReadRecord(content, pos, types).value; r.qtype == TSIG && r.qclass == ANYCLASS
    ensures var r := ReadRecord(content, pos, types).value;
            |r.items| > 0 && r.items[0] == Text(Present(Labels(algo)))
  {
    var r := ReadRecord(content, pos, types).value;
    hide *;
    RecordParts(content, pos, types);
    ShapesAre(r, types);
    PlainExact(content, p + 10, algo);
    FirstItem(content, p + 10, r.clen, ShapesOf(types, r.qtype, r.qclass, r.clen));
  }

  lemma MatchFacts(r: ParsedRecord, keyname: seq<byte>, trc: Trc)
    requires GoodTrc(trc) && RecordMatches(r, TsigRecord(keyname, trc))
    ensures r.qtype == TSIG && r.qclass == ANYCLASS && |r.items| == 7
    ensures r.items[0].Text? && TrcOf(r.items) == Some(trc.(algoName := r.items[0].text))
  {
    hide ItemMatches, ReadsAs, TrcOf, GoodTrc, Sized;
    TrcReads(r.items, trc);
  }

  lemma ShapesAre(r: ParsedRecord, types: TypeMap)
    requires Registered(types) && r.qtype == TSIG && r.qclass == ANYCLASS
    ensures var shapes := ShapesOf(types, r.qtype, r.qclass, r.clen); |shapes| > 0 && shapes[0] == DomainName
  {
  }

  /** A record is its name, ten bytes of header, and its items. */
  lemma RecordParts(content: seq<byte>, pos: nat, types: TypeMap)
    requires ReadRecord(content, pos, types).Got?
    ensures
      var r, t := ReadRecord(content, pos, types).value, ReadText(content, pos);
      && t.Got? && r.name == t.value
      && var items := ReadItems(content, t.pos + 10, ShapesOf(types, r.qtype, r.qclass, r.clen), [], t.pos + 10,
                                r.clen);
      items.Got? && r.items == items.value
  {
    hide ReadText, ReadItems, ShapesOf, HeaderOf;
  }

  lemma FirstItem(content: seq<byte>, start: nat, clen: u16, shapes: seq<Shape>)
    requires |shapes| > 0 && shapes[0] == DomainName
    requires ReadText(content, start).Got? && ReadItems(content, start, shapes, [], start, clen).Got?
    ensures
      var items := ReadItems(content, start, shapes, [], start, clen).value;
      |items| > 0 && items[0] == Text(ReadText(content, start).value)
  {
    hide ReadText;
    var t := ReadText(content, start);
    var first := [Text(t.value)];
    assert ReadItem(content, start, shapes[0], start, clen) == Got(first[0], t.pos);
    assert [] + first == first;
    ItemsKept(content, t.pos, shapes, first, start, clen);
  }

  /** Under which conditions the packet is parsed back in full. */
  ghost predicate Received(packet: seq<byte>, q: Question, rs: seq<Record>, keyname: seq<byte>, trc: Trc,
                           types: TypeMap)
  {
    && Registered(types) && MessageParser.Ordered(rs) && ShortName(q.name)
    && (forall i :: 0 <= i < |rs| ==> Readable(rs[i], types))
    && ShortName(keyname) && ShortName(trc.algoName)
    && |packet| >= 12 && (MessageParser.Opcode(packet) == 0 || MessageParser.Opcode(packet) == 4)
  }

  lemma LastFound(answers: seq<MessageParser.Entry>)
    requires answers != [] && answers[|answers| - 1].record.qtype == TSIG
    ensures LastTsig(answers, |answers|) == |answers| - 1
  {
  }

  lemma AllReadable(rs: seq<Record>, r: Record, types: TypeMap)
    requires MessageParser.Ordered(rs) && (forall i :: 0 <= i < |rs| ==> Readable(rs[i], types)) && Readable(r, types)
    requires r.place == Additional
    ensures MessageParser.Ordered(rs + [r]) && forall i :: 0 <= i < |rs + [r]| ==> Readable((rs + [r])[i], types)
  {
    hide Readable;
  }

  lemma SignedFacts(content: seq<byte>, packet: seq<byte>, q: Question, qend: nat, rs: seq<Record>, lay: seq<Slot>,
                    keyname: seq<byte>, trc: Trc, low: bool)
    requires Signed(content, packet, q, qend, rs, lay, keyname, trc, low)
    ensures GoodTrc(trc) && GoodName(keyname) && GoodName(trc.algoName) && 12 <= |content| <= |packet|
    ensures Complete(packet, q, qend, rs + [TsigRecord(keyname, trc)], lay) && lay != []
    ensures lay[|lay| - 1].start == |content|
    ensures NamedLow(Base(packet), |content|, Labels(keyname), Budget(Labels(keyname)), low)
    ensures NameEnd(Base(packet), |content|) >= 0
    ensures BytesAt(Base(packet), NameEnd(Base(packet), |content|) + 10, Plain8(trc.algoName))
    ensures packet[..|content|] == Bump(content, Additional) && CountsAre(content, rs)
  {
    hide Complete, NamedLow, BytesAt, NameEnd, Bump, CountsAre, GoodName;
  }

  lemma SlotAt(packet: seq<byte>, q: Question, qend: nat, rs: seq<Record>, lay: seq<Slot>)
    requires Complete(packet, q, qend, rs, lay) && rs != []
    ensures |packet| >= 12 && |lay| == |rs| && Base(packet) == Img(packet[12..])
    ensures RecordAt(Img(packet[12..]), lay[|rs| - 1], rs[|rs| - 1])
  {
    hide RecordAt, Base, Img;
    MessageParser.CompleteFacts(packet, q, qend, rs, lay);
  }

  lemma AlgoLabels(name: seq<byte>)
    requires GoodName(name)
    ensures GoodLabels(Labels(name))
  {
    NameSizeBounds(name);
  }

  /** What the verifier gets out of a signed packet: the place of the TSIG record, the key name and the
      content, the two names spelled as the reader shows them. */
  lemma DetailsRead(content: seq<byte>, packet: seq<byte>, q: Question, qend: nat, rs: seq<Record>, lay: seq<Slot>,
                    keyname: seq<byte>, trc: Trc, types: TypeMap)
    requires Signed(content, packet, q, qend, rs, lay, keyname, trc, true) && LowerName(keyname)
    requires Received(packet, q, rs, keyname, trc, types)
    ensures
      var p := MessageParser.ParseMessage(packet, types);
      && p.Parsed? && p.message.tsigPos == |content| && |Present(Labels(keyname))| > 0
      && GetDetails(p.message) == Some(Details(trc.(algoName := Present(Labels(trc.algoName))),
                                               Present(Labels(keyname))[..|Present(Labels(keyname))| - 1]))
  {
    hide *;
    SignedFacts(content, packet, q, qend, rs, lay, keyname, trc, true);
    ReceivedFacts(packet, q, rs, keyname, trc, types);
    AlgoLabels(trc.algoName);
    TsigReadable(keyname, trc, types);
    var r := TsigRecord(keyname, trc);
    RecordIs(keyname, trc);
    AllReadable(rs, r, types);
    var all := rs + [r];
    EndsTsig(rs, r);
    MessageParser.WrittenReads(packet, q, qend, all, lay, types);
    MessageParser.LastAnswer(packet, q, qend, all, lay, types);
    SlotAt(packet, q, qend, all, lay);
    assert all[|all| - 1] == r;
    TsigReads(packet[12..], |content| - 12, keyname, trc, types, lay[|all| - 1]);
    var m := MessageParser.ParseMessage(packet, types).message;
    PresentSome(Labels(keyname));
    DetailsAre(m, keyname, trc.(algoName := Present(Labels(trc.algoName))));
  }

  lemma DetailsAre(m: MessageParser.Message, keyname: seq<byte>, trc: Trc)
    requires m.answers != [] && m.tsigPos > 0 && |Present(Labels(keyname))| > 0
    requires var rec := m.answers[|m.answers| - 1].record;
             rec.qtype == TSIG && rec.name == Present(Labels(keyname)) && TrcOf(rec.items) == Some(trc)
    ensures GetDetails(m) == Some(Details(trc, Present(Labels(keyname))[..|Present(Labels(keyname))| - 1]))
  {
    hide Present, Labels, TrcOf;
    LastFound(m.answers);
  }

  lemma PresentSome(ls: seq<seq<byte>>)
    ensures |Present(ls)| > 0
  {
  }

  lemma ReceivedFacts(packet: seq<byte>, q: Question, rs: seq<Record>, keyname: seq<byte>, trc: Trc, types: TypeMap)
    requires Received(packet, q, rs, keyname, trc, types)
    ensures Registered(types) && MessageParser.Ordered(rs) && ShortName(q.name)
    ensures (forall i :: 0 <= i < |rs| ==> Readable(rs[i], types))
    ensures ShortName(keyname) && ShortName(trc.algoName)
    ensures |packet| >= 12 && (MessageParser.Opcode(packet) == 0 || MessageParser.Opcode(packet) == 4)
  {
  }

  lemma RecordIs(keyname: seq<byte>, trc: Trc)
    requires GoodTrc(trc)
    ensures var r := TsigRecord(keyname, trc);
            r.place == Additional && r.qtype == TSIG && r.qclass == 0xff
  {
  }

  lemma EndsTsig(rs: seq<Record>, r: Record)
    requires r.qtype == TSIG && r.qclass == 0xff
    ensures MessageParser.EndsInTsig(rs + [r])
  {
  }

  lemma SameVector(k: seq<byte>, k': seq<byte>, trc: Trc, algo': seq<byte>, timersonly: bool)
    requires GoodName(k) && GoodName(k') && GoodTrc(trc) && GoodName(algo')
    requires Labels(k') == Labels(k) && Labels(algo') == Labels(trc.algoName)
    ensures SignVector(k', trc.(algoName := algo'), timersonly) == SignVector(k, trc, timersonly)
  {
    hide Labels, GoodName, Encoded;
  }

  lemma SameMiddle(a: seq<byte>, b: seq<byte>, c: seq<byte>, d: seq<byte>)
    requires |b| == |c|
    ensures a + b + d == a + c + d <==> b == c
  {
    if a + b + d == a + c + d {
      assert b == (a + b + d)[|a|..|a| + |b|];
      assert c == (a + c + d)[|a|..|a| + |c|];
    }
  }

  /** ARCOUNT's low byte counts the additional records modulo 256. */
  lemma LowByte(content: seq<byte>, rs: seq<Record>)
    requires CountsAre(content, rs)
    ensures |content| >= 12 && content[11] == Count(rs, Additional) % 256
  {
    hide Count;
  }

  /** From a received packet the verifier rebuilds exactly what the signer signed, if and only if the
      number of additional records before signing was not 255 modulo 256. */
  lemma RebuildsIff(content: seq<byte>, packet: seq<byte>, q: Question, qend: nat, rs: seq<Record>, lay: seq<Slot>,
                    keyname: seq<byte>, trc: Trc, previous: seq<byte>, timersonly: bool, types: TypeMap)
    requires Signed(content, packet, q, qend, rs, lay, keyname, trc, true)
    requires LowerName(keyname) && Plain(keyname) && Plain(trc.algoName)
    requires Received(packet, q, rs, keyname, trc, types)
    ensures
      var p := MessageParser.ParseMessage(packet, types);
      && GoodName(keyname) && GoodTrc(trc) && p.Parsed? && GetDetails(p.message).Some?
      && var d := GetDetails(p.message).value;
      && GoodName(d.keyname) && GoodTrc(d.trc) && d.trc.mac == trc.mac && 12 <= p.message.tsigPos <= |packet|
      && (Rebuilt(packet, p.message.tsigPos, d.keyname, d.trc, previous, timersonly, 0)
            == ToSign(content, keyname, trc, previous, timersonly)
          <==> Count(rs, Additional) % 256 != 255)
  {
    hide *;
    SignedFacts(content, packet, q, qend, rs, lay, keyname, trc, true);
    DetailsRead(content, packet, q, qend, rs, lay, keyname, trc, types);
    ShownLabels(keyname);
    ShownLabels(trc.algoName);
    StripBump(content, packet);
    LowByte(content, rs);
    var k := Present(Labels(keyname))[..|Present(Labels(keyname))| - 1];
    var algo := Present(Labels(trc.algoName));
    SameVector(keyname, k, trc, algo, timersonly);
    SameMiddle(Previous(previous), Stripped(packet, |content|, 0), content, SignVector(keyname, trc, timersonly));
    GoodAlgo(trc, algo);
    TextsAre(packet, |content|, k, trc.(algoName := algo), previous, timersonly, content, keyname, trc);
  }

  lemma GoodAlgo(trc: Trc, algo: seq<byte>)
    requires GoodTrc(trc) && GoodName(algo)
    ensures GoodTrc(trc.(algoName := algo))
  {
  }

  lemma TextsAre(packet: seq<byte>, at: nat, k: seq<byte>, t: Trc, previous: seq<byte>, timersonly: bool,
                 content: seq<byte>, keyname: seq<byte>, trc: Trc)
    requires GoodName(k) && GoodTrc(t) && GoodName(keyname) && GoodTrc(trc) && 12 <= at <= |packet|
    ensures Rebuilt(packet, at, k, t, previous, timersonly, 0)
      == Previous(previous) + Stripped(packet, at, 0) + SignVector(k, t, timersonly)
    ensures ToSign(content, keyname, trc, previous, timersonly)
         == Previous(previous) + content + SignVector(keyname, trc, timersonly)
  {
    hide Previous, Stripped, SignVector;
  }

  // ---- the code ----

  /** The name alone, as a writer that holds no record yet writes it: its offsets are too large for
      the label map. */
  method PlainName(size: nat, name: seq<byte>) returns (out: seq<byte>)
    requires GoodName(name)
    ensures out == Plain8(name)
  {
    var lmap;
    ghost var full;
    out, lmap, full := WriteName([], 0xffff + size, [], name, false, false);
  }

  /** The record that the scratch writer holds; 17 bytes are its header and its empty question. */
  method SignBytes(keyname: seq<byte>, trc: Trc, timersonly: bool) returns (dw: seq<byte>)
    requires GoodName(keyname) && GoodTrc(trc)
    ensures dw == SignVector(keyname, trc, timersonly)
  {
    hide Encoded, Labels, GoodName;
    dw := [];
    if !timersonly {
      var out := PlainName(17, keyname);
      dw := out + U16(ANYCLASS) + U32(0);
      out := PlainName(17 + |dw|, trc.algoName);
      dw := dw + out;
    }
    var now := trc.time % 0x1_0000_0000;
    dw := dw + U48(now) + U16(trc.fudge);
    if !timersonly {
      ghost var before := dw;
      dw := dw + U16(trc.eRcode) + U16(|trc.otherData|);
      assert dw == before + (U16(trc.eRcode) + U16(|trc.otherData|));
    } else {
      assert dw == [] + U48(now) + U16(trc.fudge) + [];
    }
  }

  method MakeTSIGMessageFromTSIGPacket(opacket: seq<byte>, tsigOffset: nat, keyname: seq<byte>, trc: Trc,
                                       previous: seq<byte>, timersonly: bool, headerOffset: nat)
    returns (message: seq<byte>)
    requires GoodName(keyname) && GoodTrc(trc) && headerOffset + 12 <= tsigOffset <= |opacket|
    ensures message == Rebuilt(opacket, tsigOffset, keyname, trc, previous, timersonly, headerOffset)
  {
    hide SignVector;
    var packet := opacket[..tsigOffset];
    var low: int := packet[headerOffset + 11];
    packet := packet[headerOffset + 11 := (low - 1) % 256];
    message := [];
    if previous != [] {
      message := U16(|previous| % 0x10000) + previous;
    }
    var signRecord := SignBytes(keyname, trc, timersonly);
    message := message + packet + signRecord;
  }

  /** TSIGRecordContent::toPacket. */
  method ToPacket(pw: DNSPacketWriter, trc: Trc)
    requires pw.Valid() && pw.Open() && pw.record == [] && pw.current.rdata == [] && GoodTrc(trc)
    modifies pw`record, pw`current, pw`fieldEnds, pw`lmap, pw`lower
    ensures pw.Valid() && pw.current == old(pw.current).(rdata := Fields(trc))
    ensures |pw.record| == TsigSize(trc) && pw.record[..|Plain8(trc.algoName)|] == Plain8(trc.algoName)
  {
    hide Encoded, Labels, GoodName, DNSPacketWriter.Valid, U16, U48, NamedDraft, DNSPacketWriter.Drafted;
    pw.XfrLabel(trc.algoName, false);
    pw.XfrBlob(U48(trc.time));
    pw.Xfr16BitInt(trc.fudge);
    pw.XfrBlob(Sized(trc.mac));
    pw.Xfr16BitInt(trc.origID);
    pw.Xfr16BitInt(trc.eRcode);
    pw.XfrBlob(Sized(trc.otherData));
  }

  function TsigSize(trc: Trc): (n: nat)
    requires GoodTrc(trc)
  {
    |Plain8(trc.algoName)| + 16 + |trc.mac| + |trc.otherData|
  }

  /** addTSIG on a finished packet; hmac stands for calculateMD5HMAC. */
  method AddTSIG(pw: DNSPacketWriter, trc0: Trc, keyname: seq<byte>, secret: seq<byte>, previous: seq<byte>,
                 timersonly: bool, hmac: (seq<byte>, seq<byte>) -> seq<byte>)
    returns (trc: Trc)
    requires pw.Valid() && !pw.Open() && GoodName(keyname) && GoodTrc(trc0)
    requires |hmac(secret, ToSign(pw.content, keyname, trc0, previous, timersonly))| == 16
    requires GoodLabels(Labels(keyname))
    requires |pw.content| + NameSize(keyname) + 10 + TsigSize(trc0.(mac := [])) + 16 <= 65535
    modifies pw
    ensures GoodTrc(trc)
    ensures trc == trc0.(mac := hmac(secret, ToSign(old(pw.content), keyname, trc0, previous, timersonly)))
    ensures pw.Valid() && !pw.Open() && pw.records == old(pw.records) + [TsigRecord(keyname, trc)]
    ensures Signed(old(pw.content), pw.content, pw.question, pw.questionEnd, old(pw.records), pw.layout, keyname, trc,
                   old(pw.lower) && LowerName(keyname))
  {
    hide Encoded, Labels, GoodName, DNSPacketWriter.Valid, SignVector, NameSize, Signed, Fields, LowerName;
    var toSign := [];
    if previous != [] {
      toSign := U16(|previous| % 0x10000) + previous;
    }
    var signRecord := SignBytes(keyname, trc0, timersonly);
    toSign := toSign + pw.content + signRecord;
    trc := trc0.(mac := hmac(secret, toSign));
    AppendTsig(pw, keyname, trc);
  }

  /** The record itself, at the end of the packet. */
  method AppendTsig(pw: DNSPacketWriter, keyname: seq<byte>, trc: Trc)
    requires pw.Valid() && !pw.Open() && GoodName(keyname) && GoodTrc(trc)
    requires GoodLabels(Labels(keyname)) && |pw.content| + NameSize(keyname) + 10 + TsigSize(trc) <= 65535
    modifies pw
    ensures pw.Valid() && !pw.Open() && pw.records == old(pw.records) + [TsigRecord(keyname, trc)]
    ensures Signed(old(pw.content), pw.content, pw.question, pw.questionEnd, old(pw.records), pw.layout, keyname, trc,
                   old(pw.lower) && LowerName(keyname))
  {
    hide Encoded, Labels, GoodName, DNSPacketWriter.Valid, Complete, Pending, NameSize, Signed, NamedLow, Base,
         LowerName, CountsAre;
    hide Committed, TsigSize, GoodTrc, Fields, DNSPacketWriter.NameStands, DNSPacketWriter.Finished, Budget, Plain8;
    ClosedCounts(pw);
    ghost var content := pw.content;
    pw.StartRecord(keyname, TSIG, 0, ANYCLASS, Additional);
    StartedAt(pw, content);
    ghost var c1, low := pw.content, pw.lower;
    ToPacket(pw, trc);
    ghost var record, r, fends := pw.record, pw.current, pw.fieldEnds;
    PendingNow(pw);
    SizeOf(trc, record);
    pw.Commit();
    MessageParser.ValidComplete(pw);
    assert pw.records == old(pw.records) + [r];
    SignedFold(content, c1, record, fends, r, pw.content, pw.question, pw.questionEnd, old(pw.records), pw.layout,
               keyname, trc, low);
  }

  lemma SizeOf(trc: Trc, record: seq<byte>)
    requires GoodTrc(trc) && |record| == TsigSize(trc)
    ensures |Plain8(trc.algoName)| <= |record|
  {
  }

  lemma ClosedCounts(pw: DNSPacketWriter)
    requires pw.Valid() && !pw.Open()
    ensures CountsAre(pw.content, pw.records)
  {
  }

  lemma PendingNow(pw: DNSPacketWriter)
    requires pw.Valid() && pw.Open()
    ensures Pending(pw.content, pw.record, pw.rollbackMarker, pw.current, pw.fieldEnds)
  {
    hide Pending, PendingIn, Complete, Firm, Framed, MapOk;
    PendingLong(pw.frame, pw.content, pw.record, pw.rollbackMarker, pw.current, pw.fieldEnds);
    FirmParts(pw.frame, pw.Finished(), pw.question, pw.questionEnd, pw.records, pw.layout);
    PendingOut(pw.frame, pw.content, pw.record, pw.rollbackMarker, pw.current, pw.fieldEnds);
  }

  lemma StartedAt(pw: DNSPacketWriter, content: seq<byte>)
    requires pw.Valid() && pw.Open() && pw.Finished() == content && pw.NameStands()
    ensures |content| == pw.rollbackMarker <= |pw.content| && pw.content[..|content|] == content
    ensures |pw.content| >= 12
    ensures NamedLow(Base(pw.content), |content|, Labels(pw.current.name), Budget(Labels(pw.current.name)), pw.lower)
  {
    hide PendingIn, Framed, Firm, Complete, NamedLow, Base, Labels, MapOk;
  }

  lemma BumpPrefix(a: seq<byte>, n: nat, p: Place)
    requires 12 <= n <= |a|
    ensures Bump(a, p)[..n] == Bump(a[..n], p)
  {
    hide Next16;
  }

  lemma RecordBytes(content: seq<byte>, record: seq<byte>, b: Image, k: nat)
    requires |content| >= 12 && k <= |record| && Agree(Opened(content, record), b)
    ensures BytesAt(b, |content| + 10, record[..k])
  {
    var a := Opened(content, record);
    forall i | 0 <= i < k ensures b[|content| + 10 + i] == record[..k][i] {
      assert a[|content| + 10 + i] == record[i];
    }
  }

  lemma OpenedBase(content: seq<byte>, record: seq<byte>)
    requires |content| >= 12
    ensures Agree(Base(content), Opened(content, record))
  {
  }

  lemma PendingEnd(content: seq<byte>, record: seq<byte>, start: nat, r: Record, fends: seq<nat>)
    requires |content| >= 12 && Pending(content, record, start, r, fends)
    ensures NamedAt(Opened(content, record), start, Labels(r.name), Budget(Labels(r.name)))
    ensures NameEnd(Opened(content, record), start) == |content|
  {
    hide Opened, NamedAt, NameEnd, FieldsAt, Labels;
  }

  lemma SignedFold(content: seq<byte>, c1: seq<byte>, record: seq<byte>, fends: seq<nat>, r: Record, packet: seq<byte>,
                   q: Question, qend: nat, rs: seq<Record>, lay: seq<Slot>, keyname: seq<byte>, trc: Trc, low: bool)
    requires 12 <= |content| <= |c1| && c1[..|content|] == content && CountsAre(content, rs) && GoodTrc(trc)
    requires GoodName(keyname)
    requires r == TsigRecord(keyname, trc) && Pending(c1, record, |content|, r, fends) && |record| < 0x10000
    requires |Plain8(trc.algoName)| <= |record| && record[..|Plain8(trc.algoName)|] == Plain8(trc.algoName)
    requires NamedLow(Base(c1), |content|, Labels(keyname), Budget(Labels(keyname)), low)
    requires packet == Committed(c1, record, r) && Complete(packet, q, qend, rs + [r], lay)
    requires lay != [] && lay[|lay| - 1].start == |content|
    ensures Signed(content, packet, q, qend, rs, lay, keyname, trc, low)
  {
    hide *;
    TrcName(trc);
    RecordIs(keyname, trc);
    NameOf(keyname, trc);
    CommitPrefix(content, c1, record, r);
    CommittedName(c1, record, |content|, r, fends, low);
    CommittedBytes(c1, record, |content|, r, |Plain8(trc.algoName)|);
    SignedIs(content, packet, q, qend, rs, lay, keyname, trc, low);
  }

  /** Committing leaves the owner name as it was, and puts the data ten bytes behind it. */
  lemma CommittedName(c1: seq<byte>, record: seq<byte>, start: nat, r: Record, fends: seq<nat>, low: bool)
    requires 12 <= start <= |c1| && |record| < 0x10000 && Pending(c1, record, start, r, fends)
    requires NamedLow(Base(c1), start, Labels(r.name), Budget(Labels(r.name)), low)
    ensures |Committed(c1, record, r)| >= 12
    ensures NamedLow(Base(Committed(c1, record, r)), start, Labels(r.name), Budget(Labels(r.name)), low)
    ensures NameEnd(Base(Committed(c1, record, r)), start) == |c1|
  {
    hide *;
    CommitBase(c1, record, start, r);
    OpenedBase(c1, record);
    PendingEnd(c1, record, start, r, fends);
    LowMono(Base(c1), Opened(c1, record), start, Labels(r.name), Budget(Labels(r.name)), low);
    LowMono(Opened(c1, record), Base(Committed(c1, record, r)), start, Labels(r.name), Budget(Labels(r.name)), low);
  }

  lemma CommittedBytes(c1: seq<byte>, record: seq<byte>, start: nat, r: Record, k: nat)
    requires 12 <= start <= |c1| && k <= |record| < 0x10000
    ensures |Committed(c1, record, r)| >= 12 && BytesAt(Base(Committed(c1, record, r)), |c1| + 10, record[..k])
  {
    hide *;
    CommitBase(c1, record, start, r);
    RecordBytes(c1, record, Base(Committed(c1, record, r)), k);
  }

  lemma NameOf(keyname: seq<byte>, trc: Trc)
    requires GoodTrc(trc)
    ensures TsigRecord(keyname, trc).name == keyname
  {
  }

  lemma CommitPrefix(content: seq<byte>, c1: seq<byte>, record: seq<byte>, r: Record)
    requires 12 <= |content| <= |c1| && c1[..|content|] == content && |record| < 0x10000 && r.place == Additional
    ensures var packet := Committed(c1, record, r);
            |content| <= |packet| && packet[..|content|] == Bump(content, Additional)
  {
    hide Bump, RecordHeader;
    var a := c1 + RecordHeader(r, |record|) + record;
    BumpPrefix(a, |content|, Additional);
    assert a[..|content|] == content;
  }

  lemma SignedIs(content: seq<byte>, packet: seq<byte>, q: Question, qend: nat, rs: seq<Record>, lay: seq<Slot>,
                 keyname: seq<byte>, trc: Trc, low: bool)
    requires 12 <= |content| <= |packet| && CountsAre(content, rs) && GoodTrc(trc) && GoodName(keyname)
    requires packet[..|content|] == Bump(content, Additional)
    requires Complete(packet, q, qend, rs + [TsigRecord(keyname, trc)], lay) && lay != []
    requires lay[|lay| - 1].start == |content|
    requires NamedLow(Base(packet), |content|, Labels(keyname), Budget(Labels(keyname)), low)
    requires NameEnd(Base(packet), |content|) >= 0
    requires BytesAt(Base(packet), NameEnd(Base(packet), |content|) + 10, Plain8(trc.algoName))
    ensures Signed(content, packet, q, qend, rs, lay, keyname, trc, low)
  {
    hide NamedLow, NameEnd, BytesAt, Complete, CountsAre, Bump, Base, GoodTrc, GoodName;
  }

  // ---- a signature that cannot be verified ----

  const LETTER: seq<byte> := [97]

  /** An additional record with four bytes of data under the question's name. */
  const GUEST: Record := Record(LETTER, 1, 1, 0, Additional, [Blob([0, 0, 0, 0])])

  function Guests(n: nat): (rs: seq<Record>)
    ensures |rs| == n && forall i :: 0 <= i < n ==> rs[i] == GUEST
  {
    seq(n, i => GUEST)
  }

  lemma LetterName()
    ensures GoodName(LETTER) && GoodLabels(Labels(LETTER)) && |Encoded(Labels(LETTER), 0)| == 3 && LowerName(LETTER)
  {
    assert Parts(LETTER, 0, 0) == Parts(LETTER, 0, 1) == [LETTER[0..1]];
    assert LETTER[0..1] == LETTER;
    var ls := Labels(LETTER);
    assert ls == [LETTER];
    assert Encoded(ls, 1) == [0];
  }

  lemma {:induction false} GuestsCount(n: nat)
    ensures Count(Guests(n), Additional) == n
  {
    if n > 0 {
      GuestsCount(n - 1);
      assert Guests(n)[..n - 1] == Guests(n - 1);
    }
  }

  lemma {:induction false} GuestsSize(rs: seq<Record>, n: nat)
    requires n <= |rs| && forall i :: 0 <= i < |rs| ==> rs[i] == GUEST
    ensures MessageParser.PacketSize(LETTER, rs, n) <= 19 + 17 * n
  {
    LetterName();
    hide Spelled, Encoded, Parts, GoodLabel;
    if n > 0 {
      GuestsSize(rs, n - 1);
      MessageParser.RecordShort(MessageParser.MessageDraft(LETTER, rs, n - 1), LETTER, GUEST, false);
      assert MessageParser.PlainFields(GUEST.rdata, 0) == 4 + MessageParser.PlainFields(GUEST.rdata, 1);
      assert MessageParser.PlainRecord(GUEST) == 17;
    } else {
      SpelledShort([], 12, LETTER, false);
    }
  }

  lemma GuestsWritable(q: Question)
    requires q.name == LETTER
    ensures MessageParser.Writable(q, Guests(255))
  {
    LetterName();
    hide Labels, GoodName, Encoded;
    assert GUEST.rdata[0].data != [];
  }

  lemma NotRebuilt(content: seq<byte>, packet: seq<byte>, keyname: seq<byte>, trc: Trc, previous: seq<byte>,
                   timersonly: bool)
    requires 12 <= |content| <= |packet| && packet[..|content|] == Bump(content, Additional) && content[11] == 255
    requires GoodName(keyname) && GoodTrc(trc)
    ensures Rebuilt(packet, |content|, keyname, trc, previous, timersonly, 0)
         != ToSign(content, keyname, trc, previous, timersonly)
  {
    hide Previous, SignVector, GoodTrc, GoodName;
    StripBump(content, packet);
    SameMiddle(Previous(previous), Stripped(packet, |content|, 0), content, SignVector(keyname, trc, timersonly));
  }

  /** A finished packet with a question and 255 additional records. */
  method Crowded() returns (pw: DNSPacketWriter)
    ensures fresh(pw) && pw.Valid() && !pw.Open() && pw.records == Guests(255) && pw.question == Question(LETTER, 1, 1)
    ensures 12 <= |pw.content| <= 5000 && pw.content[11] == 255
  {
    LetterName();
    GuestsWritable(Question(LETTER, 1, 1));
    GuestsSize(Guests(255), 255);
    GuestsCount(255);
    hide Labels, GoodName, Encoded, DNSPacketWriter.Valid, FirstDraft, MessageParser.PacketSize,
         MessageParser.Writable, CountsAre,
         Guests, Count;
    pw := new DNSPacketWriter(LETTER, 1, 1, 0);
    var ok := MessageParser.WriteRecords(pw, Guests(255));
    ClosedCounts(pw);
    LowByte(pw.content, Guests(255));
  }

  /** Nothing but a key and an algorithm, both called a. */
  const LEAN: Trc := Trc(LETTER, 0, 0, [], 0, 0, [])

  lemma LeanFits()
    ensures GoodName(LETTER) && GoodLabels(Labels(LETTER)) && GoodTrc(LEAN) && NameSize(LETTER) == 3
    ensures TsigSize(LEAN.(mac := [])) == 19
  {
    LetterName();
    hide Labels, Encoded, GoodName;
  }

  /** A packet with 255 additional records is signed, and what the verifier rebuilds from it is not what was
      signed: the carry into the high byte of ARCOUNT stays. */
  method CarryStays(secret: seq<byte>, hmac: (seq<byte>, seq<byte>) -> seq<byte>)
    returns (content: seq<byte>, packet: seq<byte>, trc: Trc, ghost q: Question, ghost qend: nat, ghost lay: seq<Slot>,
             ghost low: bool)
    requires forall text: seq<byte> :: |hmac(secret, text)| == 16
    ensures Signed(content, packet, q, qend, Guests(255), lay, LETTER, trc, low) && GoodName(LETTER) && GoodTrc(trc)
    ensures 12 <= |content| <= |packet|
      && Rebuilt(packet, |content|, LETTER, trc, [], false, 0) != ToSign(content, LETTER, trc, [], false)
  {
    LeanFits();
    hide Labels, GoodName, Encoded, DNSPacketWriter.Valid, Guests, Rebuilt, ToSign, Signed, GoodTrc, TsigSize,
         NameSize, Complete,
         NamedLow, BytesAt, NameEnd, Bump, CountsAre;
    var pw := Crowded();
    content := pw.content;
    low := pw.lower && LowerName(LETTER);
    trc := AddTSIG(pw, LEAN, LETTER, secret, [], false, hmac);
    packet, q, qend, lay := pw.content, pw.question, pw.questionEnd, pw.layout;
    SignedFacts(content, packet, q, qend, Guests(255), lay, LETTER, trc, low);
    NotRebuilt(content, packet, LETTER, trc, [], false);
  }
}
