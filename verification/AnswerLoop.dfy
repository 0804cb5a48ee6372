/** The authoritative answering loop over an arbitrary backend, in the manner of section 4.3.2 of
    RFC 1034: class IN, recursion off, no signed zones, and a type other than DS, SOA, DNSKEY,
    NSEC3PARAM, NSEC and RRSIG. */
module AnswerLoop {
  import opened Bytes

  type Name = seq<byte>

  const NS: u16 := 2
  const CNAME: u16 := 5
  const SOA: u16 := 6
  const MX: u16 := 15
  const SRV: u16 := 33
  const DS: u16 := 43
  const ANY: u16 := 255

  datatype Place = Answer | Authority

  datatype Record = Record(qname: Name, qtype: u16, content: seq<byte>, priority: u16, auth: bool, place: Place)

  /** What getSOA yields for a zone name: the domain id and the serialised SOA. */
  datatype Zone = Zone(id: nat, soa: seq<byte>)

  /** Zones by name, and all records of a domain id and owner name. */
  datatype Backend = Backend(zones: map<Name, Zone>, data: map<(nat, Name), seq<Record>>)

  datatype Rcode = NoError | ServFail | NXDomain

  // ---- names ----

  function DotAt(s: Name, i: nat): (d: nat)
    requires i <= |s|
    ensures i <= d <= |s| && (d < |s| ==> s[d] == DOT)
    ensures forall j :: i <= j < d ==> s[j] != DOT
    decreases |s| - i
  {
    if i == |s| || s[i] == DOT then i else DotAt(s, i + 1)
  }

  /** chopOff: the name without its first label; None on the empty name. */
  function ChopOff(s: Name): (r: Option<Name>)
    ensures r.None? <==> s == []
    ensures r.Some? ==> |r.value| < |s|
  {
    if s == [] then None
    else
      var d := DotAt(s, 0);
      if d == |s| then Some([]) else Some(s[d + 1..])
  }

  /** The first label goes, with its dot, and nothing else. */
  lemma ChopOffIs(s: Name) returns (first: seq<byte>)
    requires s != []
    ensures ChopOff(s).Some? && DOT !in first
    ensures if DOT in s then s == first + [DOT] + ChopOff(s).value else s == first && ChopOff(s).value == []
  {
    var d := DotAt(s, 0);
    first := s[..d];
    if d < |s| {
      assert s == first + [DOT] + s[d + 1..];
    }
  }

  /** The name, its parent, and so on up to the empty name. */
  function Ancestors(s: Name): (r: seq<Name>)
    ensures |r| > 0 && r[0] == s
    decreases |s|
  {
    if s == [] then [s] else [s] + Ancestors(ChopOff(s).value)
  }

  lemma {:induction false} AncestorsStep(s: Name, i: nat)
    requires i < |Ancestors(s)|
    ensures ChopOff(Ancestors(s)[i]) == if i + 1 < |Ancestors(s)| then Some(Ancestors(s)[i + 1]) else None
    ensures |Ancestors(s)[i]| <= |s| && (i > 0 ==> |Ancestors(s)[i]| < |s|)
    decreases i
  {
    if i > 0 {
      AncestorsStep(ChopOff(s).value, i - 1);
    }
  }

  lemma {:induction false} AncestorsDistinct(s: Name, i: nat, j: nat)
    requires i < j < |Ancestors(s)|
    ensures |Ancestors(s)[i]| > |Ancestors(s)[j]|
    decreases j
  {
    AncestorsStep(s, j - 1);
    if i < j - 1 {
      AncestorsDistinct(s, i, j - 1);
    }
  }

  // ---- lookups ----

  /** lookup of type ANY. */
  function All(b: Backend, id: nat, name: Name): (r: seq<Record>)
  {
    if (id, name) in b.data then b.data[(id, name)] else []
  }

  predicate Wanted(qtype: u16, t: u16)
  {
    t == qtype || qtype == ANY
  }

  function OfType(t: u16, rs: seq<Record>): (r: seq<Record>)
    ensures r == [] <==> forall x :: x in rs ==> !Wanted(t, x.qtype)
    decreases |rs|
  {
    if rs == [] then [] else (if Wanted(t, rs[0].qtype) then [rs[0]] else []) + OfType(t, rs[1..])
  }

  function Lookup(b: Backend, qtype: u16, id: nat, name: Name): (r: seq<Record>)
  {
    OfType(qtype, All(b, id, name))
  }

  function Star(name: Name): (r: Name)
  {
    [42, DOT] + name
  }

  // ---- one pass, as a function of the target ----

  /** The first name that has a SOA. */
  function ZoneAt(b: Backend, names: seq<Name>, i: nat): (z: nat)
    requires i <= |names|
    ensures i <= z <= |names| && (z < |names| ==> names[z] in b.zones)
    ensures forall j :: i <= j < z ==> names[j] !in b.zones
    decreases |names| - i
  {
    if i == |names| || names[i] in b.zones then i else ZoneAt(b, names, i + 1)
  }

  /** The first name below position z with an NS set; z if there is none. */
  function CutAt(b: Backend, id: nat, names: seq<Name>, z: nat, i: nat): (c: nat)
    requires i <= z <= |names|
    ensures i <= c <= z && (c < z ==> Lookup(b, NS, id, names[c]) != [])
    ensures forall j :: i <= j < c ==> Lookup(b, NS, id, names[j]) == []
    decreases z - i
  {
    if i == z || Lookup(b, NS, id, names[i]) != [] then i else CutAt(b, id, names, z, i + 1)
  }

  /** The first name below position n with a wildcard child; n if there is none. */
  function WildAt(b: Backend, id: nat, names: seq<Name>, n: nat, i: nat): (w: nat)
    requires i <= n <= |names|
    ensures i <= w <= n && (w < n ==> All(b, id, Star(names[w])) != [])
    ensures forall j :: i <= j < w ==> All(b, id, Star(names[j])) == []
    decreases n - i
  {
    if i == n || All(b, id, Star(names[i])) != [] then i else WildAt(b, id, names, n, i + 1)
  }

  /** getBestWildcard stops behind the apex; asked at the apex itself it goes on to the root. */
  function WildEnd(names: seq<Name>, z: nat): (n: nat)
    requires z < |names|
    ensures 1 <= n <= |names| && z < n
  {
    if z == 0 then |names| else z + 1
  }

  /** What getBestWildcard keeps: the wanted type and CNAMEs. */
  function Kept(qtype: u16, rs: seq<Record>): (r: seq<Record>)
    ensures forall x :: x in r <==> x in rs && (Wanted(qtype, x.qtype) || x.qtype == CNAME)
    ensures |r| <= |rs|
    decreases |rs|
  {
    if rs == [] then []
    else (if Wanted(qtype, rs[0].qtype) || rs[0].qtype == CNAME then [rs[0]] else []) + Kept(qtype, rs[1..])
  }

  /** The target after the first n wildcard records, and those records under the asked name. */
  function TargetAfter(target: Name, rs: seq<Record>, n: nat): (t: Name)
    requires n <= |rs|
  {
    if n == 0 then target else if rs[n - 1].qtype == CNAME then rs[n - 1].content else TargetAfter(target, rs, n - 1)
  }

  function Renamed(target: Name, rs: seq<Record>, n: nat): (r: seq<Record>)
    requires n <= |rs|
    ensures |r| == n
  {
    if n == 0 then []
    else Renamed(target, rs, n - 1) + [rs[n - 1].(qname := TargetAfter(target, rs, n - 1), place := Answer)]
  }

  predicate HasCName(rs: seq<Record>)
  {
    exists i :: 0 <= i < |rs| && rs[i].qtype == CNAME
  }

  function Placed(rs: seq<Record>, place: Place): (r: seq<Record>)
    ensures |r| == |rs|
  {
    seq(|rs|, i requires 0 <= i < |rs| => rs[i].(place := place))
  }

  function SoaRecord(apex: Name, zone: Zone): (r: Record)
  {
    Record(apex, SOA, zone.soa, 0, true, Authority)
  }

  /** The answering loop's changes to a record fetched at the target. */
  function Fixed(apex: Name, zone: Zone, rr: Record): (r: Record)
  {
    var a := if rr.qtype == DS then rr.(auth := true) else rr;
    if a.qtype == SOA && SameText(a.qname, apex) then a.(content := zone.soa, auth := true) else a
  }

  function FixedAll(apex: Name, zone: Zone, rs: seq<Record>): (r: seq<Record>)
    ensures |r| == |rs|
  {
    seq(|rs|, i requires 0 <= i < |rs| => Fixed(apex, zone, rs[i]))
  }

  predicate Hit(qtype: u16, rr: Record)
  {
    Wanted(qtype, rr.qtype) && (rr.auth || rr.qtype == DS)
  }

  predicate Done(qtype: u16, rs: seq<Record>)
  {
    exists i :: 0 <= i < |rs| && Hit(qtype, rs[i])
  }

  predicate UnauthRecord(qtype: u16, apex: Name, rr: Record)
  {
    var auth := rr.auth || rr.qtype == DS;
    (rr.qtype == qtype && !auth) || (rr.qtype == NS && (!auth || !SameText(apex, rr.qname)))
  }

  predicate Unauth(qtype: u16, apex: Name, rs: seq<Record>)
  {
    exists i :: 0 <= i < |rs| && UnauthRecord(qtype, apex, rs[i])
  }

  function FirstCName(rs: seq<Record>, i: nat): (r: nat)
    requires i <= |rs|
    ensures i <= r <= |rs| && (r < |rs| ==> rs[r].qtype == CNAME)
    ensures forall j :: i <= j < r ==> rs[j].qtype != CNAME
    decreases |rs| - i
  {
    if i == |rs| || rs[i].qtype == CNAME then i else FirstCName(rs, i + 1)
  }

  /** The records of the asked type that may be given out. */
  function Found(qtype: u16, rs: seq<Record>): (r: seq<Record>)
    ensures forall x :: x in r <==> x in rs && Wanted(qtype, x.qtype) && x.auth
    decreases |rs|
  {
    if rs == [] then [] else (if Wanted(qtype, rs[0].qtype) && rs[0].auth then [rs[0]] else []) + Found(qtype, rs[1..])
  }

  /** How a pass ends: with a new target, or for good. */
  datatype Verdict =
    | Unauthoritative
    | Redirect(adds: seq<Record>, next: Name)
    | Final(kind: Kind, adds: seq<Record>)

  datatype Kind = Referral | Data | NoData | NoName | Unrectified

  function AtTarget(qtype: u16, apex: Name, zone: Zone, rs: seq<Record>): (v: Verdict)
    requires rs != []
  {
    var fixed := FixedAll(apex, zone, rs);
    var c := FirstCName(fixed, 0);
    if c < |fixed| && qtype != CNAME then Redirect([fixed[c]], fixed[c].content)
    else if Done(qtype, rs) then Final(Data, Found(qtype, fixed))
    else if Unauth(qtype, apex, rs) then Final(Unrectified, [])
    else Final(NoData, [SoaRecord(apex, zone)])
  }

  function AtWildcard(qtype: u16, apex: Name, zone: Zone, target: Name, rs: seq<Record>): (v: Verdict)
  {
    var kept := Kept(qtype, rs);
    if kept == [] then Final(NoData, [SoaRecord(apex, zone)])
    else if HasCName(kept) then Redirect(Renamed(target, kept, |kept|), TargetAfter(target, kept, |kept|))
    else Final(Data, Renamed(target, kept, |kept|))
  }

  function Judge(b: Backend, qtype: u16, target: Name): (v: Verdict)
  {
    var names := Ancestors(target);
    var z := ZoneAt(b, names, 0);
    if z == |names| then Unauthoritative
    else
      var zone := b.zones[names[z]];
      var c := CutAt(b, zone.id, names, z, 0);
      var rs := All(b, zone.id, target);
      var w := WildAt(b, zone.id, names, WildEnd(names, z), 1);
      if c < z then Final(Referral, Placed(Lookup(b, NS, zone.id, names[c]), Authority))
      else if rs != [] then AtTarget(qtype, names[z], zone, rs)
      else if w < WildEnd(names, z) then AtWildcard(qtype, names[z], zone, target, All(b, zone.id, Star(names[w])))
      else Final(NoName, [SoaRecord(names[z], zone)])
  }

  // ---- the whole loop ----

  predicate Duplicate(a: Record, c: Record)
  {
    a.qname == c.qname && a.qtype == c.qtype && a.content == c.content
    && ((a.qtype != MX && a.qtype != SRV) || a.priority == c.priority)
  }

  /** addRecord leaves out what the reply has already. */
  function Add(records: seq<Record>, rr: Record): (r: seq<Record>)
  {
    if exists i :: 0 <= i < |records| && Duplicate(rr, records[i]) then records else records + [rr]
  }

  function AddAll(records: seq<Record>, adds: seq<Record>, n: nat): (r: seq<Record>)
    requires n <= |adds|
  {
    if n == 0 then records else Add(AddAll(records, adds, n - 1), adds[n - 1])
  }

  datatype Reply = Reply(records: seq<Record>, aa: bool, rcode: Rcode, passes: nat)

  function Follow(b: Backend, qtype: u16, target: Name, count: nat, records: seq<Record>): (r: Reply)
    requires count <= 11
    ensures 1 <= r.passes <= 11
    decreases 11 - count
  {
    if count > 10 then Reply(records, true, ServFail, count)
    else match Judge(b, qtype, target)
      case Unauthoritative => Reply(records, count > 0, NoError, count + 1)
      case Redirect(adds, next) => Follow(b, qtype, next, count + 1, AddAll(records, adds, |adds|))
      case Final(kind, adds) =>
        Reply(AddAll(records, adds, |adds|), kind != Referral, if kind == NoName then NXDomain else NoError, count + 1)
  }

  /** The reply of the last pass. */
  function Finish(v: Verdict, count: nat, records: seq<Record>): (r: Reply)
    requires !v.Redirect?
  {
    if v.Unauthoritative? then Reply(records, count > 0, NoError, count + 1)
    else
      Reply(AddAll(records, v.adds, |v.adds|), v.kind != Referral, if v.kind == NoName then NXDomain else NoError,
            count + 1)
  }

  lemma TargetKind(qtype: u16, apex: Name, zone: Zone, rs: seq<Record>)
    requires rs != []
    ensures
      var v := AtTarget(qtype, apex, zone, rs);
      !v.Unauthoritative? && (v.Final? ==> v.kind != Referral && v.kind != NoName)
  {
  }

  lemma WildcardKind(qtype: u16, apex: Name, zone: Zone, target: Name, rs: seq<Record>)
    ensures
      var v := AtWildcard(qtype, apex, zone, target, rs);
      !v.Unauthoritative? && (v.Final? ==> v.kind != Referral && v.kind != NoName)
  {
  }
}
