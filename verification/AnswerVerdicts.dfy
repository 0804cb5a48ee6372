/** Where the answering loop ends: its passes are bounded, and NXDOMAIN, referrals and data are given
    exactly when the backend calls for them. */
module AnswerVerdicts {
  import opened Bytes
  import opened AnswerLoop

  // ---- where the chain of CNAMEs leads ----

  /** The target after n passes that redirect; a pass that does not leaves it. */
  function Target(b: Backend, qtype: u16, t: Name, n: nat): (r: Name)
  {
    if n == 0 then t
    else
      var at := Target(b, qtype, t, n - 1);
      match Judge(b, qtype, at)
      case Redirect(_, next) => next
      case _ => at
  }

  predicate Redirects(b: Backend, qtype: u16, t: Name, n: nat)
  {
    Judge(b, qtype, Target(b, qtype, t, n)).Redirect?
  }

  /** The chain from t ends after exactly n redirections. */
  ghost predicate Ends(b: Backend, qtype: u16, t: Name, n: nat)
  {
    (forall i :: 0 <= i < n ==> Redirects(b, qtype, t, i)) && !Redirects(b, qtype, t, n)
  }

  /** The records that the redirecting passes add. */
  function Trail(b: Backend, qtype: u16, t: Name, n: nat): (r: seq<Record>)
  {
    if n == 0 then []
    else
      Trail(b, qtype, t, n - 1)
      + match Judge(b, qtype, Target(b, qtype, t, n - 1))
        case Redirect(adds, _) => adds
        case _ => []
  }

  lemma {:induction false} FollowFails(b: Backend, qtype: u16, t: Name, k: nat, records: seq<Record>)
    requires k <= 11 && forall i :: k <= i <= 10 ==> Redirects(b, qtype, t, i)
    ensures
      var r := Follow(b, qtype, Target(b, qtype, t, k), k, records);
      r.rcode == ServFail && r.passes == 11
    decreases 11 - k
  {
    hide Judge, AddAll;
    if k <= 10 {
      assert Redirects(b, qtype, t, k);
      var v := Judge(b, qtype, Target(b, qtype, t, k));
      FollowFails(b, qtype, t, k + 1, AddAll(records, v.adds, |v.adds|));
    }
  }

  lemma {:induction false} FollowEnds(b: Backend, qtype: u16, t: Name, k: nat, n: nat, records: seq<Record>)
    requires k <= n <= 10 && Ends(b, qtype, t, n)
    ensures
      var r := Follow(b, qtype, Target(b, qtype, t, k), k, records);
      var v := Judge(b, qtype, Target(b, qtype, t, n));
      r.rcode == (if v.Final? && v.kind == NoName then NXDomain else NoError) && r.passes == n + 1
    decreases n - k
  {
    hide Judge, AddAll;
    if k < n {
      assert Redirects(b, qtype, t, k);
      var v := Judge(b, qtype, Target(b, qtype, t, k));
      FollowEnds(b, qtype, t, k + 1, n, AddAll(records, v.adds, |v.adds|));
    }
  }

  lemma {:induction false} SomeEnd(b: Backend, qtype: u16, t: Name, k: nat)
    requires forall i :: 0 <= i < k ==> Redirects(b, qtype, t, i)
    requires k <= 10 && forall n :: 0 <= n <= 10 ==> !Ends(b, qtype, t, n)
    ensures forall i :: 0 <= i <= 10 ==> Redirects(b, qtype, t, i)
    decreases 10 - k
  {
    hide Redirects;
    assert Redirects(b, qtype, t, k) by {
      assert !Ends(b, qtype, t, k);
    }
    if k < 10 {
      SomeEnd(b, qtype, t, k + 1);
    }
  }

  /** Whatever the backend holds, the loop (of at most eleven passes) gives up with ServFail
      exactly when the chain from the asked name does not end within ten redirections. */
  lemma ServFailIff(b: Backend, qtype: u16, qname: Name)
    ensures
      var r := Follow(b, qtype, qname, 0, []);
      && (r.rcode == ServFail <==> forall n :: 0 <= n <= 10 ==> !Ends(b, qtype, qname, n))
      && (r.rcode != ServFail ==> Ends(b, qtype, qname, r.passes - 1))
  {
    hide Follow, Ends, Redirects;
    assert Target(b, qtype, qname, 0) == qname;
    if n :| 0 <= n <= 10 && Ends(b, qtype, qname, n) {
      FollowEnds(b, qtype, qname, 0, n, []);
    } else {
      SomeEnd(b, qtype, qname, 0);
      FollowFails(b, qtype, qname, 0, []);
    }
  }

  // ---- NXDOMAIN ----

  /** The condition of section 4.3.2 of RFC 1034: within our zone, no delegation on the way, no record
      at the name, no wildcard up to the apex (asked at the apex itself: up to the root). */
  ghost predicate NoSuchName(b: Backend, target: Name)
  {
    var names := Ancestors(target);
    exists z :: 0 <= z < |names| && names[z] in b.zones
      && (forall j :: 0 <= j < z ==> names[j] !in b.zones)
      && All(b, b.zones[names[z]].id, target) == []
      && (forall j, rr :: 0 <= j < z && rr in All(b, b.zones[names[z]].id, names[j]) ==> rr.qtype != NS)
      && (forall j :: 1 <= j < WildEnd(names, z) ==> All(b, b.zones[names[z]].id, Star(names[j])) == [])
  }

  lemma NsAt(b: Backend, id: nat, name: Name)
    ensures Lookup(b, NS, id, name) == [] <==> forall rr :: rr in All(b, id, name) ==> rr.qtype != NS
  {
  }

  lemma NoNameForward(b: Backend, qtype: u16, target: Name)
    requires Judge(b, qtype, target).Final? && Judge(b, qtype, target).kind == NoName
    ensures NoSuchName(b, target)
  {
    hide CutAt, WildAt, ZoneAt, Lookup, Ancestors;
    var names := Ancestors(target);
    var z := ZoneAt(b, names, 0);
    var id := b.zones[names[z]].id;
    var c := CutAt(b, id, names, z, 0);
    var w := WildAt(b, id, names, WildEnd(names, z), 1);
    forall j, rr | 0 <= j < z && rr in All(b, id, names[j])
      ensures rr.qtype != NS
    {
      assert Lookup(b, NS, id, names[j]) == [];
      NsAt(b, id, names[j]);
    }
    assert 0 <= z < |names| && names[z] in b.zones;
  }

  lemma NoNameBackward(b: Backend, qtype: u16, target: Name)
    requires NoSuchName(b, target)
    ensures Judge(b, qtype, target).Final? && Judge(b, qtype, target).kind == NoName
  {
    hide CutAt, WildAt, ZoneAt, Lookup, Ancestors, WildEnd, All, AtTarget, AtWildcard;
    var names := Ancestors(target);
    var z :| 0 <= z < |names| && names[z] in b.zones
      && (forall j :: 0 <= j < z ==> names[j] !in b.zones)
      && All(b, b.zones[names[z]].id, target) == []
      && (forall j, rr :: 0 <= j < z && rr in All(b, b.zones[names[z]].id, names[j]) ==> rr.qtype != NS)
      && (forall j :: 1 <= j < WildEnd(names, z) ==> All(b, b.zones[names[z]].id, Star(names[j])) == []);
    assert z == ZoneAt(b, names, 0);
    var id := b.zones[names[z]].id;
    var c := CutAt(b, id, names, z, 0);
    if c < z {
      NsAt(b, id, names[c]);
    }
    var w := WildAt(b, id, names, WildEnd(names, z), 1);
    assert w == WildEnd(names, z);
  }

  /** The reply says NXDOMAIN exactly when the final target of the chain does not exist. */
  lemma NXDomainIff(b: Backend, qtype: u16, qname: Name)
    ensures
      var r := Follow(b, qtype, qname, 0, []);
      r.rcode == NXDomain <==>
        exists n :: 0 <= n <= 10 && Ends(b, qtype, qname, n) && NoSuchName(b, Target(b, qtype, qname, n))
  {
    hide Follow, Ends, Redirects, Judge, NoSuchName;
    var r := Follow(b, qtype, qname, 0, []);
    ServFailIff(b, qtype, qname);
    assert Target(b, qtype, qname, 0) == qname;
    forall n | 0 <= n <= 10 && Ends(b, qtype, qname, n)
      ensures r.rcode == NXDomain <==> NoSuchName(b, Target(b, qtype, qname, n))
    {
      var t := Target(b, qtype, qname, n);
      FollowEnds(b, qtype, qname, 0, n, []);
      if NoSuchName(b, t) {
        NoNameBackward(b, qtype, t);
      } else if r.rcode == NXDomain {
        NoNameForward(b, qtype, t);
      }
    }
  }

  // ---- the other verdicts ----

  /** A pass finds no authority exactly when no ancestor of the target, itself included, has a SOA. */
  lemma UnauthoritativeIff(b: Backend, qtype: u16, target: Name)
    ensures Judge(b, qtype, target).Unauthoritative? <==> forall n :: n in Ancestors(target) ==> n !in b.zones
  {
    hide CutAt, WildAt, ZoneAt, Lookup, Ancestors, AtTarget, AtWildcard, All;
    var names := Ancestors(target);
    var z := ZoneAt(b, names, 0);
    if z < |names| {
      assert names[z] in names;
      NeverUnauthoritative(b, qtype, target, z);
    }
  }

  lemma NeverUnauthoritative(b: Backend, qtype: u16, target: Name, z: nat)
    requires z == ZoneAt(b, Ancestors(target), 0) < |Ancestors(target)|
    ensures !Judge(b, qtype, target).Unauthoritative?
    ensures Judge(b, qtype, target).Final? && Judge(b, qtype, target).kind == Referral ==>
      CutAt(b, b.zones[Ancestors(target)[z]].id, Ancestors(target), z, 0) < z
  {
    hide CutAt, WildAt, ZoneAt, Lookup, Ancestors, AtTarget, AtWildcard, All;
    var names := Ancestors(target);
    var zone := b.zones[names[z]];
    var rs := All(b, zone.id, target);
    if rs != [] {
      TargetKind(qtype, names[z], zone, rs);
    }
    var w := WildAt(b, zone.id, names, WildEnd(names, z), 1);
    if w < WildEnd(names, z) {
      WildcardKind(qtype, names[z], zone, target, All(b, zone.id, Star(names[w])));
    }
  }

  /** The closest delegation: position c lies below the apex z, has an NS set, and no deeper name has one. */
  ghost predicate DelegatedAt(b: Backend, target: Name, z: nat, c: nat)
  {
    var names := Ancestors(target);
    c < z < |names| && names[z] in b.zones
      && (forall j :: 0 <= j < z ==> names[j] !in b.zones)
      && Lookup(b, NS, b.zones[names[z]].id, names[c]) != []
      && (forall j :: 0 <= j < c ==> Lookup(b, NS, b.zones[names[z]].id, names[j]) == [])
  }

  /** A pass ends in a referral exactly when the target is delegated, and then with the NS set of the
      closest delegation, in the authority section. */
  lemma ReferralIff(b: Backend, qtype: u16, target: Name)
    ensures
      var v := Judge(b, qtype, target);
      && (v.Final? && v.kind == Referral <==> exists z: nat, c: nat :: DelegatedAt(b, target, z, c))
      && (forall z: nat, c: nat :: DelegatedAt(b, target, z, c) ==>
            v == Final(Referral,
                       Placed(Lookup(b, NS, b.zones[Ancestors(target)[z]].id, Ancestors(target)[c]), Authority)))
  {
    var v := Judge(b, qtype, target);
    if v.Final? && v.kind == Referral {
      ReferralForward(b, qtype, target);
    }
    forall z: nat, c: nat | DelegatedAt(b, target, z, c)
      ensures v == Final(Referral,
                         Placed(Lookup(b, NS, b.zones[Ancestors(target)[z]].id, Ancestors(target)[c]), Authority))
    {
      ReferralBackward(b, qtype, target, z, c);
    }
  }

  lemma ReferralForward(b: Backend, qtype: u16, target: Name)
    requires Judge(b, qtype, target).Final? && Judge(b, qtype, target).kind == Referral
    ensures exists z: nat, c: nat :: DelegatedAt(b, target, z, c)
  {
    hide CutAt, WildAt, ZoneAt, Lookup, Ancestors, All;
    var names := Ancestors(target);
    var z := ZoneAt(b, names, 0);
    if z < |names| {
      NeverUnauthoritative(b, qtype, target, z);
      assert DelegatedAt(b, target, z, CutAt(b, b.zones[names[z]].id, names, z, 0));
    }
  }

  lemma ReferralBackward(b: Backend, qtype: u16, target: Name, z: nat, c: nat)
    requires DelegatedAt(b, target, z, c)
    ensures Judge(b, qtype, target)
      == Final(Referral, Placed(Lookup(b, NS, b.zones[Ancestors(target)[z]].id, Ancestors(target)[c]), Authority))
  {
    hide CutAt, WildAt, ZoneAt, Lookup, Ancestors, All, AtTarget, AtWildcard, Placed;
    var names := Ancestors(target);
    assert z == ZoneAt(b, names, 0);
    assert c == CutAt(b, b.zones[names[z]].id, names, z, 0);
  }

  /** What is given out at a name with records: exactly its authoritative records of the asked type, the
      zone's own SOA as the zone has it; and if there is none, nor a CNAME to follow, no data. */
  lemma DataExact(qtype: u16, apex: Name, zone: Zone, rs: seq<Record>)
    requires rs != []
    ensures
      var v := AtTarget(qtype, apex, zone, rs);
      && (v.Redirect? <==> qtype != CNAME && exists rr :: rr in rs && rr.qtype == CNAME)
      && (v.Final? && v.kind == Data ==>
            forall x :: x in v.adds <==>
              exists rr :: rr in rs && x == Fixed(apex, zone, rr) && Wanted(qtype, rr.qtype) && x.auth)
      && (v.Final? && v.kind == Data <==> !v.Redirect? && exists rr :: rr in rs && Hit(qtype, rr))
  {
    hide Found, Hit, Unauth, FixedAll, Fixed;
    var fixed := FixedAll(apex, zone, rs);
    FixedMembers(apex, zone, rs);
    FirstIn(fixed);
    DoneIs(qtype, rs);
  }

  lemma FixedMembers(apex: Name, zone: Zone, rs: seq<Record>)
    ensures forall x :: x in FixedAll(apex, zone, rs) <==> exists rr :: rr in rs && x == Fixed(apex, zone, rr)
    ensures forall rr :: rr in rs ==> Fixed(apex, zone, rr).qtype == rr.qtype
  {
    var fixed := FixedAll(apex, zone, rs);
    forall x | x in fixed ensures exists rr :: rr in rs && x == Fixed(apex, zone, rr) {
      var i :| 0 <= i < |fixed| && fixed[i] == x;
      assert rs[i] in rs && x == Fixed(apex, zone, rs[i]);
    }
    forall rr | rr in rs ensures Fixed(apex, zone, rr) in fixed {
      var i :| 0 <= i < |rs| && rs[i] == rr;
      assert fixed[i] == Fixed(apex, zone, rr);
    }
  }

  lemma FirstIn(rs: seq<Record>)
    ensures FirstCName(rs, 0) < |rs| <==> exists rr :: rr in rs && rr.qtype == CNAME
  {
    var c := FirstCName(rs, 0);
    if c < |rs| {
      assert rs[c] in rs;
    }
  }

  lemma DoneIs(qtype: u16, rs: seq<Record>)
    ensures Done(qtype, rs) <==> exists rr :: rr in rs && Hit(qtype, rr)
  {
    hide Hit;
    if exists rr :: rr in rs && Hit(qtype, rr) {
      var rr :| rr in rs && Hit(qtype, rr);
      var i :| 0 <= i < |rs| && rs[i] == rr;
    }
  }
}
