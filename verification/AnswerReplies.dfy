/** What a reply holds, record by record: the negative answers and their SOA, referrals, data and wildcards,
    and when a reply is marked authoritative. The conditions speak of the backend's records alone. */
module AnswerReplies {
  import opened Bytes
  import opened AnswerLoop
  import opened AnswerVerdicts
  import opened AnswerChain

  // ---- the backend's records ----

  /** The backend has this record for this name in the zone with this number. */
  ghost predicate Has(b: Backend, id: nat, name: Name, rr: Record)
  {
    (id, name) in b.data && rr in b.data[(id, name)]
  }

  lemma AllIs(b: Backend, id: nat, name: Name)
    ensures forall rr :: rr in All(b, id, name) <==> Has(b, id, name, rr)
    ensures All(b, id, name) == [] <==> forall rr :: !Has(b, id, name, rr)
  {
    if All(b, id, name) != [] {
      assert Has(b, id, name, All(b, id, name)[0]);
    }
  }

  /** The closest of target and its ancestors with a SOA is the z-th, and no name below it has an NS record. */
  ghost predicate Within(b: Backend, target: Name, z: nat)
  {
    var names := Ancestors(target);
    z < |names| && names[z] in b.zones
      && (forall j :: 0 <= j < z ==> names[j] !in b.zones)
      && (forall j, rr :: 0 <= j < z && Has(b, b.zones[names[z]].id, names[j], rr) ==> rr.qtype != 2)
  }

  /** A wildcard child of the w-th ancestor would be used: up to the apex, or beyond if the apex was asked. */
  predicate Reached(z: nat, w: nat)
  {
    1 <= w && (w <= z || z == 0)
  }

  /** The closest wildcard is a child of the w-th ancestor. */
  ghost predicate WildFrom(b: Backend, target: Name, z: nat, w: nat)
    requires Within(b, target, z)
  {
    var names := Ancestors(target);
    var id := b.zones[names[z]].id;
    && w < |names| && Reached(z, w)
    && (exists rr :: Has(b, id, [42, 46] + names[w], rr))
    && (forall j, rr :: 1 <= j < w ==> !Has(b, id, [42, 46] + names[j], rr))
  }

  /** There is no wildcard. */
  ghost predicate Wildless(b: Backend, target: Name, z: nat)
    requires Within(b, target, z)
  {
    var names := Ancestors(target);
    forall j: nat, rr :: j < |names| && Reached(z, j) ==> !Has(b, b.zones[names[z]].id, [42, 46] + names[j], rr)
  }

  /** There is no record at the name itself. */
  ghost predicate Bare(b: Backend, target: Name, z: nat)
    requires Within(b, target, z)
  {
    forall rr :: !Has(b, b.zones[Ancestors(target)[z]].id, target, rr)
  }

  // ---- which verdict ----

  lemma WithinPlaces(b: Backend, target: Name, z: nat)
    requires Within(b, target, z)
    ensures
      var names := Ancestors(target);
      ZoneAt(b, names, 0) == z && CutAt(b, b.zones[names[z]].id, names, z, 0) == z
  {
    hide ZoneAt, CutAt, Ancestors, Lookup;
    var names := Ancestors(target);
    var id := b.zones[names[z]].id;
    assert ZoneAt(b, names, 0) == z;
    var c := CutAt(b, id, names, z, 0);
    if c < z {
      NsAt(b, id, names[c]);
      AllIs(b, id, names[c]);
    }
  }

  lemma WildFromPlace(b: Backend, target: Name, z: nat, w: nat)
    requires Within(b, target, z) && WildFrom(b, target, z, w)
    ensures
      var names := Ancestors(target);
      var id := b.zones[names[z]].id;
      w == WildAt(b, id, names, WildEnd(names, z), 1) < WildEnd(names, z)
  {
    hide WildAt, Ancestors;
    var names := Ancestors(target);
    var id := b.zones[names[z]].id;
    var w' := WildAt(b, id, names, WildEnd(names, z), 1);
    AllIs(b, id, Star(names[w]));
    if w' < w {
      AllIs(b, id, Star(names[w']));
    }
  }

  lemma WildlessPlace(b: Backend, target: Name, z: nat)
    requires Within(b, target, z) && Wildless(b, target, z)
    ensures
      var names := Ancestors(target);
      WildAt(b, b.zones[names[z]].id, names, WildEnd(names, z), 1) == WildEnd(names, z)
  {
    hide WildAt, Ancestors;
    var names := Ancestors(target);
    var id := b.zones[names[z]].id;
    var w := WildAt(b, id, names, WildEnd(names, z), 1);
    if w < WildEnd(names, z) {
      AllIs(b, id, Star(names[w]));
    }
  }

  lemma JudgeAt(b: Backend, qtype: u16, target: Name, z: nat)
    requires Within(b, target, z) && !Bare(b, target, z)
    ensures
      var names := Ancestors(target);
      var zone := b.zones[names[z]];
      All(b, zone.id, target) != []
      && Judge(b, qtype, target) == AtTarget(qtype, names[z], zone, All(b, zone.id, target))
  {
    WithinPlaces(b, target, z);
    AllIs(b, b.zones[Ancestors(target)[z]].id, target);
    hide ZoneAt, CutAt, WildAt, Ancestors, All, AtTarget, AtWildcard, Lookup;
  }

  lemma JudgeWild(b: Backend, qtype: u16, target: Name, z: nat, w: nat)
    requires Within(b, target, z) && Bare(b, target, z) && WildFrom(b, target, z, w)
    ensures
      var names := Ancestors(target);
      var zone := b.zones[names[z]];
      Judge(b, qtype, target) == AtWildcard(qtype, names[z], zone, target, All(b, zone.id, [42, 46] + names[w]))
  {
    WithinPlaces(b, target, z);
    WildFromPlace(b, target, z, w);
    AllIs(b, b.zones[Ancestors(target)[z]].id, target);
    hide ZoneAt, CutAt, WildAt, WildEnd, Ancestors, All, AtTarget, AtWildcard, Lookup;
  }

  lemma JudgeNone(b: Backend, qtype: u16, target: Name, z: nat)
    requires Within(b, target, z) && Bare(b, target, z) && Wildless(b, target, z)
    ensures
      var apex := Ancestors(target)[z];
      Judge(b, qtype, target) == Final(NoName, [Record(apex, 6, b.zones[apex].soa, 0, true, Authority)])
  {
    WithinPlaces(b, target, z);
    WildlessPlace(b, target, z);
    AllIs(b, b.zones[Ancestors(target)[z]].id, target);
    hide ZoneAt, CutAt, WildAt, WildEnd, Ancestors, All, AtTarget, AtWildcard, Lookup;
  }

  // ---- negative replies ----

  /** There are records at the name, but none of the type asked for, no CNAME, and no NS record that belongs to
      a child zone or is not ours to give. */
  ghost predicate NoDataAt(b: Backend, qtype: u16, target: Name, z: nat)
    requires Within(b, target, z)
  {
    var apex := Ancestors(target)[z];
    && !Bare(b, target, z)
    && forall rr :: Has(b, b.zones[apex].id, target, rr) ==>
         && rr.qtype != qtype && rr.qtype != 5
         && (qtype == 255 ==> !rr.auth && rr.qtype != 43)
         && (rr.qtype == 2 ==> rr.auth && SameText(apex, rr.qname))
  }

  /** There is no record at the name, and the closest wildcard has neither the type asked for nor a CNAME. */
  ghost predicate NoDataFromWild(b: Backend, qtype: u16, target: Name, z: nat, w: nat)
    requires Within(b, target, z)
  {
    var names := Ancestors(target);
    && Bare(b, target, z) && WildFrom(b, target, z, w)
    && forall rr :: Has(b, b.zones[names[z]].id, [42, 46] + names[w], rr) ==>
         rr.qtype != qtype && qtype != 255 && rr.qtype != 5
  }

  lemma TargetNoData(qtype: u16, apex: Name, zone: Zone, rs: seq<Record>)
    requires rs != []
    requires forall rr :: rr in rs ==>
      && rr.qtype != qtype && rr.qtype != 5
      && (qtype == 255 ==> !rr.auth && rr.qtype != 43)
      && (rr.qtype == 2 ==> rr.auth && SameText(apex, rr.qname))
    ensures AtTarget(qtype, apex, zone, rs) == Final(NoData, [Record(apex, 6, zone.soa, 0, true, Authority)])
  {
    hide FixedAll, Fixed, Found, SameText;
    FixedMembers(apex, zone, rs);
    FirstIn(FixedAll(apex, zone, rs));
    forall i | 0 <= i < |rs|
      ensures !Hit(qtype, rs[i]) && !UnauthRecord(qtype, apex, rs[i])
    {
      assert rs[i] in rs;
    }
  }

  lemma WildNoData(qtype: u16, apex: Name, zone: Zone, target: Name, rs: seq<Record>)
    requires forall rr :: rr in rs ==> rr.qtype != qtype && qtype != 255 && rr.qtype != 5
    ensures AtWildcard(qtype, apex, zone, target, rs)
      == Final(NoData, [Record(apex, 6, zone.soa, 0, true, Authority)])
  {
    hide Renamed, TargetAfter;
    var kept := Kept(qtype, rs);
    if kept != [] {
      assert kept[0] in kept;
    }
  }

  lemma JudgeNegative(b: Backend, qtype: u16, target: Name, z: nat, w: nat)
    requires Within(b, target, z)
    requires NoDataAt(b, qtype, target, z) || NoDataFromWild(b, qtype, target, z, w)
    ensures
      var apex := Ancestors(target)[z];
      Judge(b, qtype, target) == Final(NoData, [Record(apex, 6, b.zones[apex].soa, 0, true, Authority)])
  {
    hide Judge, AtTarget, AtWildcard, All, Ancestors, SameText;
    var names := Ancestors(target);
    var zone := b.zones[names[z]];
    AllIs(b, zone.id, target);
    if !Bare(b, target, z) {
      JudgeAt(b, qtype, target, z);
      TargetNoData(qtype, names[z], zone, All(b, zone.id, target));
    } else {
      JudgeWild(b, qtype, target, z, w);
      AllIs(b, zone.id, [42, 46] + names[w]);
      WildNoData(qtype, names[z], zone, target, All(b, zone.id, [42, 46] + names[w]));
    }
  }

  /** One record that is no CNAME joins a chain of CNAMEs. */
  lemma JoinsChain(cs: seq<Record>, from: Name, to: Name, rr: Record)
    requires Chain(cs, from, to) && rr.qtype != CNAME
    ensures AddAll(cs, [rr], 1) == cs + [rr]
  {
    hide Before, SameText;
    AddNew(cs, [rr]);
  }

  /** A chain that ends in a name that does not exist, or in one without data of the type asked for: the reply
      holds the CNAMEs and, behind them, one record, the SOA of the closest zone, in the authority section.
      It says NXDOMAIN only if nothing was found at the name and no wildcard above it. */
  lemma NegativeReply(b: Backend, qtype: u16, qname: Name, n: nat, z: nat, w: nat)
    requires Orderly(b) && n <= 10 && Ends(b, qtype, qname, n) && Within(b, Target(b, qtype, qname, n), z)
    requires
      var t := Target(b, qtype, qname, n);
      || (Bare(b, t, z) && Wildless(b, t, z))
      || NoDataAt(b, qtype, t, z)
      || NoDataFromWild(b, qtype, t, z, w)
    ensures
      var t := Target(b, qtype, qname, n);
      var r := Follow(b, qtype, qname, 0, []);
      var apex := Ancestors(t)[z];
      && |r.records| == n + 1 && Chain(r.records[..n], qname, t)
      && r.records[n] == Record(apex, 6, b.zones[apex].soa, 0, true, Authority)
      && r.aa && r.rcode == (if Bare(b, t, z) && Wildless(b, t, z) then NXDomain else NoError)
  {
    hide Judge, Ancestors, Bare, Wildless, NoDataAt, NoDataFromWild, Target, Ends, Orderly, Follow, Chain, AddAll;
    var t := Target(b, qtype, qname, n);
    if Bare(b, t, z) && Wildless(b, t, z) {
      JudgeNone(b, qtype, t, z);
    } else {
      JudgeNegative(b, qtype, t, z, w);
    }
    var apex := Ancestors(t)[z];
    var soa := Record(apex, 6, b.zones[apex].soa, 0, true, Authority);
    var r := ReplyEnds(b, qtype, qname, n);
    JoinsChain(r.records[..n], qname, t, soa);
  }

  /** The reply is the chain and what its last pass makes of it. */
  lemma ReplyEnds(b: Backend, qtype: u16, qname: Name, n: nat) returns (r: Reply)
    requires Orderly(b) && n <= 10 && Ends(b, qtype, qname, n)
    ensures r == Follow(b, qtype, qname, 0, []) && r.passes == n + 1 && n <= |r.records|
    ensures Chain(r.records[..n], qname, Target(b, qtype, qname, n))
    ensures !Judge(b, qtype, Target(b, qtype, qname, n)).Redirect?
    ensures r == Finish(Judge(b, qtype, Target(b, qtype, qname, n)), n, r.records[..n])
  {
    hide Judge, Orderly, Follow, Chain, AddAll, Redirects;
    assert Target(b, qtype, qname, 0) == qname;
    FollowEnds(b, qtype, qname, 0, n, []);
    RepliesWithChain(b, qtype, qname);
    r := Follow(b, qtype, qname, 0, []);
  }

  // ---- when the reply is authoritative ----

  /** A reply is marked authoritative unless it is a referral, or no ancestor of the name asked for has a SOA. */
  lemma AuthoritativeIff(b: Backend, qtype: u16, qname: Name)
    ensures
      Follow(b, qtype, qname, 0, []).aa <==>
        && (exists a :: a in Ancestors(qname) && a in b.zones)
        && !(exists n: nat, z: nat, c: nat ::
               n <= 10 && Ends(b, qtype, qname, n) && DelegatedAt(b, Target(b, qtype, qname, n), z, c))
  {
    hide Judge, Follow, Redirects, Ends, DelegatedAt, Ancestors;
    assert Target(b, qtype, qname, 0) == qname;
    if n: nat :| n <= 10 && Ends(b, qtype, qname, n) {
      EndMark(b, qtype, qname, n);
      forall m: nat | Ends(b, qtype, qname, m)
        ensures m == n
      {
        EndsOnce(b, qtype, qname, m, n);
      }
    } else {
      SomeEnd(b, qtype, qname, 0);
      GivesUpMarked(b, qtype, qname, 0, []);
      RedirectsWithin(b, qtype, qname);
      UnauthoritativeIff(b, qtype, qname);
    }
  }

  lemma EndsOnce(b: Backend, qtype: u16, t: Name, m: nat, n: nat)
    requires Ends(b, qtype, t, m) && Ends(b, qtype, t, n)
    ensures m == n
  {
    hide Redirects;
  }

  lemma RedirectsWithin(b: Backend, qtype: u16, qname: Name)
    requires Redirects(b, qtype, qname, 0)
    ensures !Judge(b, qtype, qname).Unauthoritative?
  {
    hide Judge;
  }

  lemma EndMark(b: Backend, qtype: u16, qname: Name, n: nat)
    requires n <= 10 && Ends(b, qtype, qname, n)
    ensures Follow(b, qtype, qname, 0, []).aa <==>
      && (exists a :: a in Ancestors(qname) && a in b.zones)
      && !(exists z: nat, c: nat :: DelegatedAt(b, Target(b, qtype, qname, n), z, c))
  {
    hide Judge, Follow, Redirects, DelegatedAt, Ancestors;
    assert Target(b, qtype, qname, 0) == qname;
    UnauthoritativeIff(b, qtype, qname);
    ReferralIff(b, qtype, Target(b, qtype, qname, n));
    MarkAt(b, qtype, qname, 0, n, []);
    EndIs(b, qtype, qname, n);
    if n > 0 {
      assert Redirects(b, qtype, qname, 0);
      RedirectsWithin(b, qtype, qname);
    }
  }

  lemma {:induction false} MarkAt(b: Backend, qtype: u16, t: Name, k: nat, n: nat, records: seq<Record>)
    requires k <= n <= 10 && Ends(b, qtype, t, n)
    ensures
      var v := Judge(b, qtype, Target(b, qtype, t, n));
      Follow(b, qtype, Target(b, qtype, t, k), k, records).aa
      == if v.Unauthoritative? then n > 0 else v.Final? && v.kind != Referral
    decreases n - k
  {
    hide Judge, AddAll;
    if k < n {
      assert Redirects(b, qtype, t, k);
      var v := Judge(b, qtype, Target(b, qtype, t, k));
      MarkAt(b, qtype, t, k + 1, n, AddAll(records, v.adds, |v.adds|));
    }
  }

  lemma {:induction false} GivesUpMarked(b: Backend, qtype: u16, t: Name, k: nat, records: seq<Record>)
    requires k <= 11 && forall i :: k <= i <= 10 ==> Redirects(b, qtype, t, i)
    ensures Follow(b, qtype, Target(b, qtype, t, k), k, records).aa
    decreases 11 - k
  {
    hide Judge, AddAll;
    if k <= 10 {
      assert Redirects(b, qtype, t, k);
      var v := Judge(b, qtype, Target(b, qtype, t, k));
      GivesUpMarked(b, qtype, t, k + 1, AddAll(records, v.adds, |v.adds|));
    }
  }

  // ---- referrals, data and wildcards ----

  /** The reply has room for only one of these. */
  predicate Alike(a: Record, c: Record)
  {
    && a.qname == c.qname && a.qtype == c.qtype && a.content == c.content
    && (a.qtype == 15 || a.qtype == 33 ==> a.priority == c.priority)
  }

  /** From position n on no record is there twice. */
  ghost predicate NoneTwice(records: seq<Record>, n: nat)
  {
    forall i, j :: 0 <= i < j && n <= j < |records| ==> !Alike(records[j], records[i])
  }

  ghost predicate Holds(records: seq<Record>, rr: Record)
  {
    exists i :: 0 <= i < |records| && Alike(rr, records[i])
  }

  lemma {:induction false} AddedExactly(cs: seq<Record>, adds: seq<Record>, n: nat)
    requires n <= |adds|
    ensures
      var r := AddAll(cs, adds, n);
      && cs <= r && NoneTwice(r, |cs|)
      && (forall i :: |cs| <= i < |r| ==> r[i] in adds)
      && (forall k :: 0 <= k < n ==> Holds(r, adds[k]))
  {
    if n > 0 {
      AddedExactly(cs, adds, n - 1);
      var r, r' := AddAll(cs, adds, n - 1), AddAll(cs, adds, n);
      AddedOne(r, adds[n - 1], |cs|);
      hide Add, AddAll, NoneTwice, Holds;
      forall k | 0 <= k < n
        ensures Holds(r', adds[k])
      {
        if k < n - 1 {
          MoreHolds(r, r', adds[k]);
        }
      }
    }
  }

  lemma AddedOne(r: seq<Record>, rr: Record, n: nat)
    requires n <= |r| && NoneTwice(r, n)
    ensures
      var r' := Add(r, rr);
      && r <= r' && NoneTwice(r', n) && Holds(r', rr)
      && (forall i :: |r| <= i < |r'| ==> r'[i] == rr)
  {
    var r' := Add(r, rr);
    if r' == r + [rr] {
      assert Alike(rr, r'[|r|]);
    } else {
      var i :| 0 <= i < |r| && Duplicate(rr, r[i]);
      assert Alike(rr, r[i]);
    }
  }

  lemma MoreHolds(r: seq<Record>, r': seq<Record>, rr: Record)
    requires Holds(r, rr) && r <= r'
    ensures Holds(r', rr)
  {
    var i :| 0 <= i < |r| && Alike(rr, r[i]);
    assert Alike(rr, r'[i]);
  }

  lemma NsIs(b: Backend, id: nat, name: Name)
    ensures forall x :: x in Lookup(b, NS, id, name) <==> Has(b, id, name, x) && x.qtype == 2
  {
    AllIs(b, id, name);
    OfTypeHas(NS, All(b, id, name));
  }

  lemma {:induction false} OfTypeHas(t: u16, rs: seq<Record>)
    ensures forall x :: x in OfType(t, rs) <==> x in rs && Wanted(t, x.qtype)
    decreases |rs|
  {
    if rs != [] {
      OfTypeHas(t, rs[1..]);
      assert rs == [rs[0]] + rs[1..];
    }
  }

  /** An NS record the backend has for this name, moved to the authority section. */
  ghost predicate Referred(b: Backend, id: nat, cut: Name, x: Record)
  {
    exists rr :: Has(b, id, cut, rr) && rr.qtype == 2
              && x == Record(rr.qname, 2, rr.content, rr.priority, rr.auth, Authority)
  }

  /** A referral: the CNAMEs and then the NS records of the closest delegation, in the authority section. */
  lemma ReferralReply(b: Backend, qtype: u16, qname: Name, n: nat, z: nat, c: nat)
    requires Orderly(b) && n <= 10 && Ends(b, qtype, qname, n)
    requires DelegatedAt(b, Target(b, qtype, qname, n), z, c)
    ensures
      var t := Target(b, qtype, qname, n);
      var r := Follow(b, qtype, qname, 0, []);
      var id, cut := b.zones[Ancestors(t)[z]].id, Ancestors(t)[c];
      && n <= |r.records| && Chain(r.records[..n], qname, t) && NoneTwice(r.records, n)
      && !r.aa && r.rcode == NoError
      && (forall i :: n <= i < |r.records| ==> Referred(b, id, cut, r.records[i]))
      && (forall rr :: Has(b, id, cut, rr) && rr.qtype == 2 ==> Holds(r.records, rr))
  {
    hide Judge, Ancestors, Target, Ends, Orderly, Follow, Chain, AddAll, Alike, Has, NoneTwice, Holds, Lookup, Referred,
         Placed;
    var t := Target(b, qtype, qname, n);
    var id, cut := b.zones[Ancestors(t)[z]].id, Ancestors(t)[c];
    ReferralBackward(b, qtype, t, z, c);
    var r := ReplyEnds(b, qtype, qname, n);
    ReferralAdds(b, id, cut, r.records[..n]);
  }

  lemma ReferralAdds(b: Backend, id: nat, cut: Name, cs: seq<Record>)
    ensures
      var adds := Placed(Lookup(b, NS, id, cut), Authority);
      var out := AddAll(cs, adds, |adds|);
      && cs <= out && NoneTwice(out, |cs|)
      && (forall i :: |cs| <= i < |out| ==> Referred(b, id, cut, out[i]))
      && (forall rr :: Has(b, id, cut, rr) && rr.qtype == 2 ==> Holds(out, rr))
  {
    hide AddAll, Has, NoneTwice, Holds, Lookup;
    var ns := Lookup(b, NS, id, cut);
    NsIs(b, id, cut);
    var adds := Placed(ns, Authority);
    AddedExactly(cs, adds, |adds|);
    var out := AddAll(cs, adds, |adds|);
    forall i | |cs| <= i < |out|
      ensures Referred(b, id, cut, out[i])
    {
      var k :| 0 <= k < |adds| && adds[k] == out[i];
      assert ns[k] in ns;
    }
    forall rr | Has(b, id, cut, rr) && rr.qtype == 2
      ensures Holds(out, rr)
    {
      var k :| 0 <= k < |ns| && ns[k] == rr;
      MovedHolds(out, rr, adds[k]);
    }
  }

  lemma MovedHolds(records: seq<Record>, a: Record, c: Record)
    requires Holds(records, c) && Alike(a, c)
    ensures Holds(records, a)
  {
  }

  /** A record of the name is of the type asked for and ours to give: its zone's own SOA always is. */
  predicate Owned(qtype: u16, apex: Name, rr: Record)
  {
    && (rr.qtype == qtype || qtype == 255)
    && (rr.auth || rr.qtype == 43 || (rr.qtype == 6 && SameText(rr.qname, apex)))
  }

  /** The record as it is given out; the zone's own SOA has the zone's serial and timers. */
  function GivenOut(apex: Name, soa: seq<byte>, rr: Record): (x: Record)
  {
    Record(rr.qname, rr.qtype, if rr.qtype == 6 && SameText(rr.qname, apex) then soa else rr.content, rr.priority, true,
           rr.place)
  }

  ghost predicate OwnData(b: Backend, qtype: u16, target: Name, apex: Name, x: Record)
    requires apex in b.zones
  {
    exists rr :: Has(b, b.zones[apex].id, target, rr) && Owned(qtype, apex, rr)
              && x == GivenOut(apex, b.zones[apex].soa, rr)
  }

  /** The name has data of the type asked for, and no CNAME unless that is what was asked for. */
  ghost predicate DataAt(b: Backend, qtype: u16, target: Name, z: nat)
    requires Within(b, target, z)
  {
    var id := b.zones[Ancestors(target)[z]].id;
    && (exists rr :: Has(b, id, target, rr) && (rr.qtype == qtype || qtype == 255) && (rr.auth || rr.qtype == 43))
    && (qtype == 5 || forall rr :: Has(b, id, target, rr) ==> rr.qtype != 5)
  }

  lemma FoundIs(qtype: u16, apex: Name, zone: Zone, rs: seq<Record>)
    ensures
      var found := Found(qtype, FixedAll(apex, zone, rs));
      && (forall x :: x in found ==>
            exists rr :: rr in rs && Owned(qtype, apex, rr) && x == GivenOut(apex, zone.soa, rr))
      && (forall rr :: rr in rs && Owned(qtype, apex, rr) ==> GivenOut(apex, zone.soa, rr) in found)
  {
    hide SameText, FixedAll;
    FixedMembers(apex, zone, rs);
  }

  lemma TargetData(b: Backend, qtype: u16, target: Name, z: nat, cs: seq<Record>)
    requires Within(b, target, z) && DataAt(b, qtype, target, z)
    ensures
      var apex := Ancestors(target)[z];
      var v := Judge(b, qtype, target);
      && v.Final? && v.kind == Data
      && var out := AddAll(cs, v.adds, |v.adds|);
         && cs <= out && NoneTwice(out, |cs|)
         && (forall i :: |cs| <= i < |out| ==> OwnData(b, qtype, target, apex, out[i]))
         && (forall rr :: Has(b, b.zones[apex].id, target, rr) && Owned(qtype, apex, rr) ==>
               Holds(out, GivenOut(apex, b.zones[apex].soa, rr)))
  {
    hide AddAll, Has, NoneTwice, Holds, Judge, AtTarget, Found, Ancestors, FixedAll, SameText, Owned, GivenOut;
    var apex := Ancestors(target)[z];
    var zone := b.zones[apex];
    var rs := All(b, zone.id, target);
    AllIs(b, zone.id, target);
    JudgeAt(b, qtype, target, z);
    DataExact(qtype, apex, zone, rs);
    var adds := Found(qtype, FixedAll(apex, zone, rs));
    FoundIs(qtype, apex, zone, rs);
    TargetFinds(qtype, apex, zone, rs);
    AddedExactly(cs, adds, |adds|);
  }

  lemma TargetFinds(qtype: u16, apex: Name, zone: Zone, rs: seq<Record>)
    requires rs != []
    requires
      var v := AtTarget(qtype, apex, zone, rs);
      v.Final? && v.kind == Data
    ensures AtTarget(qtype, apex, zone, rs).adds == Found(qtype, FixedAll(apex, zone, rs))
  {
    hide Found, FixedAll, Done, Unauth;
  }

  /** A chain that ends at a name with data: behind the CNAMEs stand that name's own records of the type asked
      for, all of them and nothing else. */
  lemma DataReply(b: Backend, qtype: u16, qname: Name, n: nat, z: nat)
    requires Orderly(b) && n <= 10 && Ends(b, qtype, qname, n) && Within(b, Target(b, qtype, qname, n), z)
    requires DataAt(b, qtype, Target(b, qtype, qname, n), z)
    ensures
      var t := Target(b, qtype, qname, n);
      var r := Follow(b, qtype, qname, 0, []);
      var apex := Ancestors(t)[z];
      && n <= |r.records| && Chain(r.records[..n], qname, t) && NoneTwice(r.records, n)
      && r.aa && r.rcode == NoError
      && (forall i :: n <= i < |r.records| ==> OwnData(b, qtype, t, apex, r.records[i]))
      && (forall rr :: Has(b, b.zones[apex].id, t, rr) && Owned(qtype, apex, rr) ==>
            Holds(r.records, GivenOut(apex, b.zones[apex].soa, rr)))
  {
    hide Judge, Ancestors, Target, Ends, Orderly, Follow, Chain, AddAll, Alike, Has, NoneTwice, Holds, OwnData, DataAt,
         Owned, GivenOut;
    var t := Target(b, qtype, qname, n);
    var r := ReplyEnds(b, qtype, qname, n);
    TargetData(b, qtype, t, z, r.records[..n]);
  }

  /** The name has records, but those of the type asked for, or its NS records, are not ours to give. */
  ghost predicate OnlyForeign(b: Backend, qtype: u16, target: Name, z: nat)
    requires Within(b, target, z)
  {
    var apex := Ancestors(target)[z];
    var id := b.zones[apex].id;
    && (forall rr :: Has(b, id, target, rr) ==>
          && (qtype == 5 || rr.qtype != 5)
          && (rr.qtype == qtype || qtype == 255 ==> !rr.auth && rr.qtype != 43))
    && (exists rr :: Has(b, id, target, rr)
          && (rr.qtype == qtype || (rr.qtype == 2 && (!rr.auth || !SameText(apex, rr.qname)))))
  }

  lemma TargetForeign(b: Backend, qtype: u16, target: Name, z: nat)
    requires Within(b, target, z) && OnlyForeign(b, qtype, target, z)
    ensures Judge(b, qtype, target) == Final(Unrectified, [])
  {
    hide Has, Judge, Found, Ancestors, FixedAll, Fixed, SameText;
    var apex := Ancestors(target)[z];
    var zone := b.zones[apex];
    var rs := All(b, zone.id, target);
    AllIs(b, zone.id, target);
    JudgeAt(b, qtype, target, z);
    FixedMembers(apex, zone, rs);
    FirstIn(FixedAll(apex, zone, rs));
    DoneIs(qtype, rs);
    var rr :| Has(b, zone.id, target, rr)
      && (rr.qtype == qtype || (rr.qtype == 2 && (!rr.auth || !SameText(apex, rr.qname))));
    var i :| 0 <= i < |rs| && rs[i] == rr;
    assert UnauthRecord(qtype, apex, rs[i]);
  }

  /** A chain that ends at such a name: the reply holds the CNAMEs alone. */
  lemma ForeignReply(b: Backend, qtype: u16, qname: Name, n: nat, z: nat)
    requires Orderly(b) && n <= 10 && Ends(b, qtype, qname, n) && Within(b, Target(b, qtype, qname, n), z)
    requires OnlyForeign(b, qtype, Target(b, qtype, qname, n), z)
    ensures
      var r := Follow(b, qtype, qname, 0, []);
      |r.records| == n && Chain(r.records, qname, Target(b, qtype, qname, n)) && r.aa && r.rcode == NoError
  {
    hide Judge, Ancestors, Target, Ends, Orderly, Follow, Chain, OnlyForeign;
    TargetForeign(b, qtype, Target(b, qtype, qname, n), z);
    var r := ReplyEnds(b, qtype, qname, n);
    assert r.records == r.records[..n];
  }

  /** A wildcard's record of the type asked for, under the name asked for. */
  ghost predicate Grown(b: Backend, qtype: u16, id: nat, wild: Name, target: Name, x: Record)
  {
    exists rr :: Has(b, id, wild, rr) && (rr.qtype == qtype || qtype == 255)
              && x == Record(target, rr.qtype, rr.content, rr.priority, rr.auth, Answer)
  }

  /** The closest wildcard has data of the type asked for and no CNAME. */
  ghost predicate DataFromWild(b: Backend, qtype: u16, target: Name, z: nat, w: nat)
    requires Within(b, target, z)
  {
    var names := Ancestors(target);
    var id := b.zones[names[z]].id;
    && Bare(b, target, z) && WildFrom(b, target, z, w)
    && (exists rr :: Has(b, id, [42, 46] + names[w], rr) && (rr.qtype == qtype || qtype == 255))
    && (forall rr :: Has(b, id, [42, 46] + names[w], rr) ==> rr.qtype != 5)
  }

  lemma {:induction false} RenamedPlain(target: Name, rs: seq<Record>, n: nat)
    requires n <= |rs| && forall rr :: rr in rs ==> rr.qtype != CNAME
    ensures TargetAfter(target, rs, n) == target
    ensures forall i :: 0 <= i < n ==> Renamed(target, rs, n)[i] == rs[i].(qname := target, place := Answer)
  {
    if n > 0 {
      RenamedPlain(target, rs, n - 1);
    }
  }

  lemma WildData(qtype: u16, apex: Name, zone: Zone, target: Name, rs: seq<Record>)
    requires exists rr :: rr in rs && Wanted(qtype, rr.qtype)
    requires forall rr :: rr in rs ==> rr.qtype != CNAME
    ensures
      var v := AtWildcard(qtype, apex, zone, target, rs);
      && v.Final? && v.kind == Data
      && (forall x :: x in v.adds ==>
            exists rr :: rr in rs && Wanted(qtype, rr.qtype)
                      && x == Record(target, rr.qtype, rr.content, rr.priority, rr.auth, Answer))
      && (forall rr :: rr in rs && Wanted(qtype, rr.qtype) ==>
            Record(target, rr.qtype, rr.content, rr.priority, rr.auth, Answer) in v.adds)
  {
    hide Renamed, TargetAfter, Wanted, Kept;
    var kept := Kept(qtype, rs);
    RenamedPlain(target, kept, |kept|);
    var adds := Renamed(target, kept, |kept|);
    forall x | x in adds
      ensures
        exists rr :: rr in rs && Wanted(qtype, rr.qtype)
                  && x == Record(target, rr.qtype, rr.content, rr.priority, rr.auth, Answer)
    {
      var i :| 0 <= i < |adds| && adds[i] == x;
      assert kept[i] in kept;
    }
    forall rr | rr in rs && Wanted(qtype, rr.qtype)
      ensures Record(target, rr.qtype, rr.content, rr.priority, rr.auth, Answer) in adds
    {
      var i :| 0 <= i < |kept| && kept[i] == rr;
      assert adds[i] in adds;
    }
  }

  lemma WildAdds(b: Backend, qtype: u16, target: Name, z: nat, w: nat, cs: seq<Record>)
    requires Within(b, target, z) && DataFromWild(b, qtype, target, z, w)
    ensures
      var names := Ancestors(target);
      var id, wild := b.zones[names[z]].id, [42, 46] + names[w];
      var v := Judge(b, qtype, target);
      && v.Final? && v.kind == Data
      && var out := AddAll(cs, v.adds, |v.adds|);
         && cs <= out && NoneTwice(out, |cs|)
         && (forall i :: |cs| <= i < |out| ==> Grown(b, qtype, id, wild, target, out[i]))
         && (forall rr :: Has(b, id, wild, rr) && (rr.qtype == qtype || qtype == 255) ==>
               Holds(out, Record(target, rr.qtype, rr.content, rr.priority, rr.auth, Answer)))
  {
    hide AddAll, Has, NoneTwice, Holds, Judge, AtWildcard, Ancestors;
    var names := Ancestors(target);
    var zone, wild := b.zones[names[z]], [42, 46] + names[w];
    var rs := All(b, zone.id, wild);
    AllIs(b, zone.id, wild);
    JudgeWild(b, qtype, target, z, w);
    WildData(qtype, names[z], zone, target, rs);
    var v := AtWildcard(qtype, names[z], zone, target, rs);
    AddedExactly(cs, v.adds, |v.adds|);
  }

  /** A chain that ends at a name without records under a wildcard with data: behind the CNAMEs stand the
      wildcard's records of the type asked for, under that name. */
  lemma WildcardReply(b: Backend, qtype: u16, qname: Name, n: nat, z: nat, w: nat)
    requires Orderly(b) && n <= 10 && Ends(b, qtype, qname, n) && Within(b, Target(b, qtype, qname, n), z)
    requires DataFromWild(b, qtype, Target(b, qtype, qname, n), z, w)
    ensures
      var t := Target(b, qtype, qname, n);
      var r := Follow(b, qtype, qname, 0, []);
      var id, wild := b.zones[Ancestors(t)[z]].id, [42, 46] + Ancestors(t)[w];
      && n <= |r.records| && Chain(r.records[..n], qname, t) && NoneTwice(r.records, n)
      && r.aa && r.rcode == NoError
      && (forall i :: n <= i < |r.records| ==> Grown(b, qtype, id, wild, t, r.records[i]))
      && (forall rr :: Has(b, id, wild, rr) && (rr.qtype == qtype || qtype == 255) ==>
            Holds(r.records, Record(t, rr.qtype, rr.content, rr.priority, rr.auth, Answer)))
  {
    hide Judge, Ancestors, Target, Ends, Orderly, Follow, Chain, AddAll, Alike, Has, NoneTwice, Holds, Grown;
    var t := Target(b, qtype, qname, n);
    WildAdds(b, qtype, t, z, w, []);
    var r := ReplyEnds(b, qtype, qname, n);
    WildAdds(b, qtype, t, z, w, r.records[..n]);
  }

  /** A chain that leaves our zones: the reply holds the CNAMEs alone. */
  lemma OutsideReply(b: Backend, qtype: u16, qname: Name, n: nat)
    requires Orderly(b) && n <= 10 && Ends(b, qtype, qname, n)
    requires forall a :: a in Ancestors(Target(b, qtype, qname, n)) ==> a !in b.zones
    ensures
      var r := Follow(b, qtype, qname, 0, []);
      && |r.records| == n && Chain(r.records, qname, Target(b, qtype, qname, n))
      && r.rcode == NoError && (r.aa <==> n > 0)
  {
    hide Judge, Ancestors, Target, Ends, Orderly, Follow, Chain;
    UnauthoritativeIff(b, qtype, Target(b, qtype, qname, n));
    var r := ReplyEnds(b, qtype, qname, n);
    assert r.records == r.records[..n];
  }

  // ---- where the chain goes on ----

  /** A pass goes on where the name has a CNAME (which is not what was asked for), or has no records
      while the closest wildcard has a CNAME; in both cases to that CNAME's content. */
  ghost predicate GoesOn(b: Backend, qtype: u16, target: Name, z: nat, w: nat, rr: Record)
    requires Within(b, target, z)
  {
    var names := Ancestors(target);
    var id := b.zones[names[z]].id;
    && rr.qtype == 5
    && if Bare(b, target, z) then WildFrom(b, target, z, w) && Has(b, id, [42, 46] + names[w], rr)
       else qtype != 5 && Has(b, id, target, rr)
  }

  lemma FollowsCName(b: Backend, qtype: u16, target: Name, z: nat, w: nat, rr: Record)
    requires Orderly(b) && Within(b, target, z) && GoesOn(b, qtype, target, z, w, rr)
    ensures
      Judge(b, qtype, target)
      == Redirect([if Bare(b, target, z) then Record(target, 5, rr.content, rr.priority, rr.auth, Answer) else rr],
                  rr.content)
  {
    hide Judge, AtWildcard, AtTarget, Ancestors, All;
    var names := Ancestors(target);
    var zone := b.zones[names[z]];
    if Bare(b, target, z) {
      JudgeWild(b, qtype, target, z, w);
      OnlyCName(b, zone.id, [42, 46] + names[w], rr);
      WildCName(qtype, names[z], zone, target, rr);
    } else {
      JudgeAt(b, qtype, target, z);
      OnlyCName(b, zone.id, target, rr);
      TargetCName(qtype, names[z], zone, rr);
    }
  }

  lemma OnlyCName(b: Backend, id: nat, name: Name, rr: Record)
    requires Orderly(b) && Has(b, id, name, rr) && rr.qtype == CNAME
    ensures All(b, id, name) == [rr]
  {
    hide SameText;
  }

  lemma TargetCName(qtype: u16, apex: Name, zone: Zone, rr: Record)
    requires rr.qtype == CNAME && qtype != CNAME
    ensures AtTarget(qtype, apex, zone, [rr]) == Redirect([rr], rr.content)
  {
    hide Found, Done, Unauth, SameText;
    var fixed := FixedAll(apex, zone, [rr]);
    assert fixed[0] == rr;
    assert FirstCName(fixed, 0) == 0;
  }

  lemma WildCName(qtype: u16, apex: Name, zone: Zone, target: Name, rr: Record)
    requires rr.qtype == CNAME
    ensures AtWildcard(qtype, apex, zone, target, [rr])
      == Redirect([Record(target, 5, rr.content, rr.priority, rr.auth, Answer)], rr.content)
  {
    var kept := Kept(qtype, [rr]);
    assert [rr][1..] == [];
    assert kept == [rr];
    assert kept[0].qtype == CNAME;
    assert TargetAfter(target, kept, 0) == target;
    assert Renamed(target, kept, 1) == Renamed(target, kept, 0) + [rr.(qname := target, place := Answer)];
  }

  // ---- nothing else can happen ----

  lemma PlacesWithin(b: Backend, target: Name) returns (z: nat, c: nat)
    requires exists a :: a in Ancestors(target) && a in b.zones
    ensures DelegatedAt(b, target, z, c) || Within(b, target, z)
  {
    hide ZoneAt, CutAt, Ancestors, Lookup;
    var names := Ancestors(target);
    z := ZoneAt(b, names, 0);
    var a :| a in names && a in b.zones;
    var k :| 0 <= k < |names| && names[k] == a;
    var id := b.zones[names[z]].id;
    c := CutAt(b, id, names, z, 0);
    forall j, rr | 0 <= j < c && Has(b, id, names[j], rr)
      ensures rr.qtype != 2
    {
      NsIs(b, id, names[j]);
      assert rr !in Lookup(b, NS, id, names[j]);
    }
  }

  lemma WildPlaces(b: Backend, target: Name, z: nat) returns (w: nat)
    requires Within(b, target, z)
    ensures WildFrom(b, target, z, w) || Wildless(b, target, z)
  {
    hide WildAt, Ancestors;
    var names := Ancestors(target);
    var id := b.zones[names[z]].id;
    w := WildAt(b, id, names, WildEnd(names, z), 1);
    forall j: nat, rr | 1 <= j < w
      ensures !Has(b, id, [42, 46] + names[j], rr)
    {
      AllIs(b, id, Star(names[j]));
    }
    if w < WildEnd(names, z) {
      AllIs(b, id, Star(names[w]));
    }
  }

  /** Every name falls under one of the cases above, and what they say differs: each of them says exactly
      when a pass ends the way it does. */
  lemma EveryCase(b: Backend, qtype: u16, target: Name)
    ensures
      || (forall a :: a in Ancestors(target) ==> a !in b.zones)
      || (exists z: nat, c: nat :: DelegatedAt(b, target, z, c))
      || (exists z: nat :: Within(b, target, z)
            && (|| (Bare(b, target, z) && Wildless(b, target, z))
                || NoDataAt(b, qtype, target, z) || OnlyForeign(b, qtype, target, z) || DataAt(b, qtype, target, z)
                || (exists w: nat :: NoDataFromWild(b, qtype, target, z, w) || DataFromWild(b, qtype, target, z, w))
                || (exists w: nat, rr :: GoesOn(b, qtype, target, z, w, rr))))
  {
    hide DelegatedAt, Within, Wildless, WildFrom, Ancestors, SameText, Has;
    if exists a :: a in Ancestors(target) && a in b.zones {
      var z, c := PlacesWithin(b, target);
      if Within(b, target, z) {
        var w := WildPlaces(b, target, z);
        if Bare(b, target, z) {
          WildCases(b, qtype, target, z, w);
        } else {
          TargetCases(b, qtype, target, z);
        }
      }
    }
  }

  lemma TargetCases(b: Backend, qtype: u16, target: Name, z: nat)
    requires Within(b, target, z) && !Bare(b, target, z)
    ensures
      || NoDataAt(b, qtype, target, z) || OnlyForeign(b, qtype, target, z) || DataAt(b, qtype, target, z)
      || (exists w: nat, rr :: GoesOn(b, qtype, target, z, w, rr))
  {
    hide Ancestors, SameText, Has;
    var id := b.zones[Ancestors(target)[z]].id;
    if rr :| Has(b, id, target, rr) && rr.qtype == 5 && qtype != 5 {
      assert GoesOn(b, qtype, target, z, 0, rr);
    }
  }

  lemma WildCases(b: Backend, qtype: u16, target: Name, z: nat, w: nat)
    requires Within(b, target, z) && Bare(b, target, z) && (WildFrom(b, target, z, w) || Wildless(b, target, z))
    ensures
      || Wildless(b, target, z)
      || (exists w: nat :: NoDataFromWild(b, qtype, target, z, w) || DataFromWild(b, qtype, target, z, w))
      || (exists w: nat, rr :: GoesOn(b, qtype, target, z, w, rr))
  {
    hide Ancestors, Has, Wildless;
    if WildFrom(b, target, z, w) {
      var names := Ancestors(target);
      var id := b.zones[names[z]].id;
      if rr :| Has(b, id, [42, 46] + names[w], rr) && rr.qtype == 5 {
        assert GoesOn(b, qtype, target, z, w, rr);
      } else if exists rr :: Has(b, id, [42, 46] + names[w], rr) && (rr.qtype == qtype || qtype == 255) {
        assert DataFromWild(b, qtype, target, z, w);
      } else {
        assert NoDataFromWild(b, qtype, target, z, w);
      }
    }
  }
}
