/** The answering loop as code: PacketHandler and the reply it builds. */
module PacketHandlers {
  import opened Bytes
  import opened AnswerLoop

  // ---- the code ----

  /** The reply packet under construction. */
  class DNSPacket {
    var records: seq<Record>
    var aa: bool
    var rcode: Rcode

    constructor ()
      ensures records == [] && aa && rcode == NoError
    {
      records, aa, rcode := [], true, NoError;
    }

    method AddRecord(rr: Record)
      modifies this`records
      ensures records == Add(old(records), rr)
    {
      var i := 0;
      while i < |records|
        invariant i <= |records| && records == old(records)
        invariant forall j :: 0 <= j < i ==> !Duplicate(rr, records[j])
      {
        if Duplicate(rr, records[i]) {
          return;
        }
        i := i + 1;
      }
      records := records + [rr];
    }

    method AddRecords(rrs: seq<Record>)
      modifies this`records
      ensures records == AddAll(old(records), rrs, |rrs|)
    {
      for i := 0 to |rrs|
        invariant records == AddAll(old(records), rrs, i)
      {
        AddRecord(rrs[i]);
      }
    }
  }

  class PacketHandler {
    const b: Backend

    constructor (backend: Backend)
      ensures b == backend
    {
      b := backend;
    }

    method GetAuth(target: Name) returns (apex: Option<Name>)
      ensures
        var names := Ancestors(target);
        var z := ZoneAt(b, names, 0);
        apex == if z < |names| then Some(names[z]) else None
    {
      ghost var names := Ancestors(target);
      ghost var i := 0;
      var subdomain := target;
      while true
        invariant i < |names| && subdomain == names[i]
        invariant forall j :: 0 <= j < i ==> names[j] !in b.zones
        decreases |subdomain|
      {
        if subdomain in b.zones {
          return Some(subdomain);
        }
        AncestorsStep(target, i);
        var up := ChopOff(subdomain);
        if up.None? {
          return None;
        }
        subdomain := up.value;
        i := i + 1;
      }
    }

    method GetBestReferralNS(apex: Name, zone: Zone, target: Name, ghost z: nat) returns (ns: seq<Record>)
      requires z < |Ancestors(target)| && Ancestors(target)[z] == apex
      ensures
        var c := CutAt(b, zone.id, Ancestors(target), z, 0);
        ns == if c < z then Lookup(b, NS, zone.id, Ancestors(target)[c]) else []
    {
      hide Lookup, Ancestors, CutAt, ChopOff;
      ghost var names := Ancestors(target);
      ghost var i := 0;
      var subdomain := target;
      while true
        invariant i <= z && subdomain == names[i]
        invariant forall j :: 0 <= j < i ==> Lookup(b, NS, zone.id, names[j]) == []
        decreases |subdomain|
      {
        if i < z {
          AncestorsDistinct(target, i, z);
        }
        if subdomain == apex {
          return [];
        }
        ns := Lookup(b, NS, zone.id, subdomain);
        if ns != [] {
          return ns;
        }
        AncestorsStep(target, i);
        var up := ChopOff(subdomain);
        if up.None? {
          return [];
        }
        subdomain := up.value;
        i := i + 1;
      }
    }

    method GetBestWildcard(qtype: u16, apex: Name, zone: Zone, target: Name, ghost z: nat)
      returns (something: bool, ret: seq<Record>)
      requires z < |Ancestors(target)| && Ancestors(target)[z] == apex
      ensures
        var names := Ancestors(target);
        var w := WildAt(b, zone.id, names, WildEnd(names, z), 1);
        if w < WildEnd(names, z) then something && ret == Kept(qtype, All(b, zone.id, Star(names[w]))) else !something
    {
      ghost var names := Ancestors(target);
      ghost var i := 0;
      var subdomain := target;
      ret := [];
      while true
        invariant i < WildEnd(names, z) && subdomain == names[i] && (i > 0 && z > 0 ==> i < z)
        invariant forall j :: 1 <= j <= i ==> All(b, zone.id, Star(names[j])) == []
        decreases |subdomain|
      {
        AncestorsStep(target, i);
        var up := ChopOff(subdomain);
        if up.None? {
          return false, [];
        }
        subdomain := up.value;
        i := i + 1;
        var rs := All(b, zone.id, Star(subdomain));
        if rs != [] {
          return true, Kept(qtype, rs);
        }
        if i < z {
          AncestorsDistinct(target, i, z);
        } else if z < i {
          AncestorsDistinct(target, z, i);
        }
        if subdomain == apex {
          return false, [];
        }
      }
    }

    method TryReferral(apex: Name, zone: Zone, target: Name, r: DNSPacket, ghost z: nat) returns (done: bool)
      requires z < |Ancestors(target)| && Ancestors(target)[z] == apex
      modifies r`records, r`aa
      ensures
        var names := Ancestors(target);
        var c := CutAt(b, zone.id, names, z, 0);
        && done == (c < z)
        && r.aa == (old(r.aa) && !done)
        && r.records == if c < z then (
            var adds := Placed(Lookup(b, NS, zone.id, names[c]), Authority);
            AddAll(old(r.records), adds, |adds|))
          else old(r.records)
    {
      var rrset := GetBestReferralNS(apex, zone, target, z);
      if rrset == [] {
        return false;
      }
      r.AddRecords(Placed(rrset, Authority));
      r.aa := false;
      return true;
    }

    method TryWildcard(qtype: u16, apex: Name, zone: Zone, target: Name, r: DNSPacket, ghost z: nat)
      returns (done: bool, next: Name, retargeted: bool, nodata: bool)
      requires z < |Ancestors(target)| && Ancestors(target)[z] == apex
      modifies r`records
      ensures
        var names := Ancestors(target);
        var w := WildAt(b, zone.id, names, WildEnd(names, z), 1);
        if w == WildEnd(names, z) then !done && r.records == old(r.records)
        else (
          var v := AtWildcard(qtype, apex, zone, target, All(b, zone.id, Star(names[w])));
          && done && retargeted == v.Redirect?
          && nodata == (v.Final? && v.kind == NoData)
          && (v.Final? && !nodata ==> v.kind == Data)
          && (nodata ==> v.adds == [SoaRecord(apex, zone)])
          && r.records == (if nodata then old(r.records) else AddAll(old(r.records), v.adds, |v.adds|))
          && (retargeted ==> next == v.next))
    {
      hide Ancestors, WildAt, WildEnd, All, Star, AddAll, Renamed, SoaRecord, Kept;
      done, next, retargeted, nodata := true, target, false, false;
      var something, rrset := GetBestWildcard(qtype, apex, zone, target, z);
      if !something {
        done := false;
        return;
      }
      if rrset == [] {
        nodata := true;
        return;
      }
      ghost var adds := Renamed(target, rrset, |rrset|);
      AddNone(r.records, adds);
      for i := 0 to |rrset|
        invariant next == TargetAfter(target, rrset, i)
        invariant retargeted <==> exists j :: 0 <= j < i && rrset[j].qtype == CNAME
        invariant r.records == AddAll(old(r.records), adds, i)
      {
        RenamedAt(target, rrset, |rrset|, i);
        var rr := rrset[i].(qname := next, place := Answer);
        if rr.qtype == CNAME {
          retargeted := true;
          next := rr.content;
        }
        r.AddRecord(rr);
        AddMore(old(r.records), adds, i);
      }
    }

    /** The records of the target itself. With only unauthoritative data PacketHandler tries a referral
        once more, which finds no more than it did before this was called. */
    method AnswerTarget(qtype: u16, apex: Name, zone: Zone, target: Name, rs: seq<Record>, r: DNSPacket)
      returns (retargeted: bool, next: Name)
      requires rs != []
      modifies r`records
      ensures
        var v := AtTarget(qtype, apex, zone, rs);
        && retargeted == v.Redirect?
        && r.records == AddAll(old(r.records), v.adds, |v.adds|)
        && (retargeted ==> next == v.next)
    {
      var weDone, weRedirected, weHaveUnauth := false, false, false;
      var rrset := [];
      for i := 0 to |rs|
        invariant |rrset| == i && forall j :: 0 <= j < i ==> rrset[j] == Fixed(apex, zone, rs[j])
        invariant weDone <==> exists j :: 0 <= j < i && Hit(qtype, rs[j])
        invariant weHaveUnauth <==> exists j :: 0 <= j < i && UnauthRecord(qtype, apex, rs[j])
        invariant weRedirected <==> qtype != CNAME && exists j :: 0 <= j < i && rrset[j].qtype == CNAME
      {
        var rr := rs[i];
        if rr.qtype == DS {
          rr := rr.(auth := true);
        }
        if (qtype == ANY || rr.qtype == qtype) && rr.auth {
          weDone := true;
        }
        if (rr.qtype == qtype && !rr.auth) || (rr.qtype == NS && (!rr.auth || !SameText(apex, rr.qname))) {
          weHaveUnauth := true;
        }
        if rr.qtype == CNAME && qtype != CNAME {
          weRedirected := true;
        }
        if rr.qtype == SOA && SameText(rr.qname, apex) {
          rr := rr.(content := zone.soa, auth := true);
        }
        rrset := rrset + [rr];
      }
      assert rrset == FixedAll(apex, zone, rs);
      AnswerFetched(r.records, qtype, apex, zone, rs);
      next := target;
      if weRedirected {
        var c := FirstCName(rrset, 0);
        r.AddRecord(rrset[c]);
        return true, rrset[c].content;
      }
      if weDone {
        r.AddRecords(Found(qtype, rrset));
      } else if !weHaveUnauth {
        r.AddRecord(SoaRecord(apex, zone));
      }
      return false, target;
    }

    /** One pass of the loop, from the test for authority on. */
    method Pass(qtype: u16, target: Name, retargetcount: nat, r: DNSPacket) returns (retargeted: bool, next: Name)
      requires r.aa && r.rcode == NoError
      modifies r
      ensures
        var v := Judge(b, qtype, target);
        && retargeted == v.Redirect?
        && (retargeted ==>
              && next == v.next && r.records == AddAll(old(r.records), v.adds, |v.adds|) && r.aa && r.rcode == NoError)
        && (!retargeted ==>
              Reply(r.records, r.aa, r.rcode, retargetcount + 1) == Finish(v, retargetcount, old(r.records)))
    {
      hide Ancestors, CutAt, WildAt, WildEnd, All, Star, AddAll, AtTarget, AtWildcard, Placed, Lookup;
      next := target;
      var auth := GetAuth(target);
      if auth.None? {
        if retargetcount == 0 {
          r.aa := false;
        }
        return false, target;
      }
      var apex := auth.value;
      var zone := b.zones[apex];
      ghost var z := ZoneAt(b, Ancestors(target), 0);
      var done := TryReferral(apex, zone, target, r, z);
      if done {
        return false, target;
      }
      var rs := All(b, zone.id, target);
      if rs != [] {
        retargeted, next := AnswerTarget(qtype, apex, zone, target, rs, r);
        TargetKind(qtype, apex, zone, rs);
        return;
      }
      var nodata;
      done, next, retargeted, nodata := TryWildcard(qtype, apex, zone, target, r, z);
      if done {
        ghost var k := WildAt(b, zone.id, Ancestors(target), WildEnd(Ancestors(target), z), 1);
        WildcardKind(qtype, apex, zone, target, All(b, zone.id, Star(Ancestors(target)[k])));
        if nodata {
          AddOnly(r.records, SoaRecord(apex, zone));
          r.AddRecord(SoaRecord(apex, zone));
        }
        return;
      }
      AddOnly(r.records, SoaRecord(apex, zone));
      r.AddRecord(SoaRecord(apex, zone));
      r.rcode := NXDomain;
      return false, target;
    }

    /** The loop of questionOrRecurse, from its label `retargeted` to the end. */
    method QuestionOrRecurse(qtype: u16, qname: Name) returns (r: DNSPacket, passes: nat)
      ensures fresh(r) && Reply(r.records, r.aa, r.rcode, passes) == Follow(b, qtype, qname, 0, [])
    {
      hide Judge, AddAll;
      r := new DNSPacket();
      var target, retargetcount := qname, 0;
      while true
        invariant fresh(r) && retargetcount <= 11 && r.aa && r.rcode == NoError
        invariant Follow(b, qtype, target, retargetcount, r.records) == Follow(b, qtype, qname, 0, [])
        decreases 11 - retargetcount
      {
        if retargetcount > 10 {
          r.rcode := ServFail;
          return r, retargetcount;
        }
        var retargeted, next := Pass(qtype, target, retargetcount, r);
        if !retargeted {
          return r, retargetcount + 1;
        }
        target, retargetcount := next, retargetcount + 1;
      }
    }
  }

  lemma {:induction false} RenamedAt(target: Name, rs: seq<Record>, n: nat, i: nat)
    requires i < n <= |rs|
    ensures Renamed(target, rs, n)[i] == rs[i].(qname := TargetAfter(target, rs, i), place := Answer)
  {
    if i < n - 1 {
      RenamedAt(target, rs, n - 1, i);
    }
  }

  lemma AddNone(records: seq<Record>, adds: seq<Record>)
    ensures AddAll(records, adds, 0) == records
  {
  }

  lemma AddMore(records: seq<Record>, adds: seq<Record>, n: nat)
    requires n < |adds|
    ensures AddAll(records, adds, n + 1) == Add(AddAll(records, adds, n), adds[n])
  {
  }

  lemma AddOnly(records: seq<Record>, rr: Record)
    ensures AddAll(records, [rr], 1) == Add(records, rr)
  {
    AddMore(records, [rr], 0);
    AddNone(records, [rr]);
  }

  lemma AnswerFetched(records: seq<Record>, qtype: u16, apex: Name, zone: Zone, rs: seq<Record>)
    requires rs != []
    ensures
      var v := AtTarget(qtype, apex, zone, rs);
      && (v.Redirect? ==> AddAll(records, v.adds, |v.adds|) == Add(records, v.adds[0]))
      && (v.Final? && v.kind == NoData ==> AddAll(records, v.adds, |v.adds|) == Add(records, SoaRecord(apex, zone)))
      && (v.Final? && v.kind == Unrectified ==> AddAll(records, v.adds, |v.adds|) == records)
  {
    hide AddAll, Add, Found, Done, Unauth;
    var v := AtTarget(qtype, apex, zone, rs);
    AddNone(records, v.adds);
    if |v.adds| == 1 {
      AddOnly(records, v.adds[0]);
      assert [v.adds[0]] == v.adds;
    }
  }
}
