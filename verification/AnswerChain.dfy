/** The CNAMEs in a reply form a chain from the asked name to the final target. */
module AnswerChain {
  import opened Bytes
  import opened AnswerLoop
  import opened AnswerVerdicts

  // ---- the CNAMEs added ----

  /** A CNAME is alone at its owner, and records carry the name they were looked up by, up to case. */
  ghost predicate Orderly(b: Backend)
  {
    forall k, rr :: k in b.data && rr in b.data[k] ==>
      (rr.qtype == CNAME ==> |b.data[k]| == 1) && SameText(rr.qname, k.1)
  }

  lemma RedirectSingle(b: Backend, qtype: u16, t: Name)
    requires Orderly(b) && Judge(b, qtype, t).Redirect?
    ensures
      var v := Judge(b, qtype, t);
      |v.adds| == 1 && v.adds[0].qtype == CNAME && v.adds[0].content == v.next && SameText(v.adds[0].qname, t)
  {
    hide CutAt, WildAt, ZoneAt, Lookup, Ancestors, SameText, Kept, AtWildcard, AtTarget;
    var names := Ancestors(t);
    var z := ZoneAt(b, names, 0);
    var zone := b.zones[names[z]];
    var rs := All(b, zone.id, t);
    if rs != [] {
      TargetSingle(qtype, names[z], zone, t, rs);
    } else {
      var w := WildAt(b, zone.id, names, WildEnd(names, z), 1);
      WildcardSingle(qtype, names[z], zone, t, All(b, zone.id, Star(names[w])));
    }
  }

  lemma TargetSingle(qtype: u16, apex: Name, zone: Zone, t: Name, rs: seq<Record>)
    requires rs != [] && forall rr :: rr in rs ==> (rr.qtype == CNAME ==> |rs| == 1) && SameText(rr.qname, t)
    requires AtTarget(qtype, apex, zone, rs).Redirect?
    ensures
      var v := AtTarget(qtype, apex, zone, rs);
      |v.adds| == 1 && v.adds[0].qtype == CNAME && v.adds[0].content == v.next && SameText(v.adds[0].qname, t)
  {
    hide Found, Done, Unauth;
    var fixed := FixedAll(apex, zone, rs);
    var c := FirstCName(fixed, 0);
    assert rs[c] in rs;
    assert fixed[c] == Fixed(apex, zone, rs[c]) == rs[c];
  }

  lemma WildcardSingle(qtype: u16, apex: Name, zone: Zone, t: Name, rs: seq<Record>)
    requires forall rr :: rr in rs && rr.qtype == CNAME ==> |rs| == 1
    requires AtWildcard(qtype, apex, zone, t, rs).Redirect?
    ensures
      var v := AtWildcard(qtype, apex, zone, t, rs);
      |v.adds| == 1 && v.adds[0].qtype == CNAME && v.adds[0].content == v.next && SameText(v.adds[0].qname, t)
  {
    hide Kept;
    var kept := Kept(qtype, rs);
    var i :| 0 <= i < |kept| && kept[i].qtype == CNAME;
    assert kept[i] in kept;
    assert |kept| == 1;
    assert Renamed(t, kept, 1) == Renamed(t, kept, 0) + [kept[0].(qname := t, place := Answer)];
  }

  lemma {:induction false} TrailTargets(b: Backend, qtype: u16, t: Name, n: nat, i: nat)
    requires Orderly(b) && i < n && forall j :: 0 <= j < n ==> Redirects(b, qtype, t, j)
    ensures
      var cs := Trail(b, qtype, t, n);
      && |cs| == n && Trail(b, qtype, t, n - 1) == cs[..n - 1]
      && cs[i].qtype == CNAME && cs[i].content == Target(b, qtype, t, i + 1)
      && SameText(cs[i].qname, Target(b, qtype, t, i))
  {
    hide Judge, Orderly, SameText;
    assert Redirects(b, qtype, t, n - 1);
    RedirectSingle(b, qtype, Target(b, qtype, t, n - 1));
    if n > 1 {
      TrailTargets(b, qtype, t, n - 1, if i < n - 1 then i else 0);
    }
  }

  /** The name that led to the i-th CNAME. */
  function Before(cs: seq<Record>, from: Name, i: nat): (t: Name)
    requires i <= |cs|
  {
    if i == 0 then from else cs[i - 1].content
  }

  /** The CNAMEs lead from one name to another, each owned by the content of the one before. */
  ghost predicate Chain(cs: seq<Record>, from: Name, to: Name)
  {
    && (forall i :: 0 <= i < |cs| ==> cs[i].qtype == CNAME && SameText(cs[i].qname, Before(cs, from, i)))
    && to == Before(cs, from, |cs|)
  }

  lemma TrailAt(b: Backend, qtype: u16, t: Name, n: nat, i: nat)
    requires Orderly(b) && i < n && forall j :: 0 <= j < n ==> Redirects(b, qtype, t, j)
    ensures
      var cs := Trail(b, qtype, t, n);
      |cs| == n && cs[i].qtype == CNAME && SameText(cs[i].qname, Before(cs, t, i))
  {
    hide Trail, Redirects, SameText, Orderly, Judge;
    TrailTargets(b, qtype, t, n, i);
    if i > 0 {
      TrailTargets(b, qtype, t, n, i - 1);
    }
  }

  lemma TrailChain(b: Backend, qtype: u16, t: Name, n: nat)
    requires Orderly(b) && forall j :: 0 <= j < n ==> Redirects(b, qtype, t, j)
    ensures |Trail(b, qtype, t, n)| == n && Chain(Trail(b, qtype, t, n), t, Target(b, qtype, t, n))
  {
    hide *;
    TrailNone(b, qtype, t);
    var cs := Trail(b, qtype, t, n);
    if n > 0 {
      TrailTargets(b, qtype, t, n, n - 1);
    }
    forall i | 0 <= i < n
      ensures cs[i].qtype == CNAME && SameText(cs[i].qname, Before(cs, t, i))
    {
      TrailAt(b, qtype, t, n, i);
    }
    ChainFold(cs, t, Target(b, qtype, t, n));
  }

  lemma ChainFold(cs: seq<Record>, from: Name, to: Name)
    requires forall i :: 0 <= i < |cs| ==> cs[i].qtype == CNAME && SameText(cs[i].qname, Before(cs, from, i))
    requires to == if cs == [] then from else cs[|cs| - 1].content
    ensures Chain(cs, from, to)
  {
    hide SameText;
  }

  lemma TrailNone(b: Backend, qtype: u16, t: Name)
    ensures Target(b, qtype, t, 0) == t && Trail(b, qtype, t, 0) == []
  {
  }

  /** From equal targets the same targets follow. */
  lemma {:induction false} SameAhead(b: Backend, qtype: u16, t: Name, i: nat, j: nat, m: nat)
    requires Target(b, qtype, t, i) == Target(b, qtype, t, j)
    ensures Target(b, qtype, t, i + m) == Target(b, qtype, t, j + m)
  {
    hide Judge;
    if m > 0 {
      SameAhead(b, qtype, t, i, j, m - 1);
    }
  }

  /** No name is met twice on a chain that ends. */
  lemma NoRevisit(b: Backend, qtype: u16, t: Name, i: nat, j: nat, n: nat)
    requires i < j <= n && Ends(b, qtype, t, n)
    ensures Target(b, qtype, t, i) != Target(b, qtype, t, j)
  {
    hide Judge;
    assert Redirects(b, qtype, t, i + (n - j));
    if Target(b, qtype, t, i) == Target(b, qtype, t, j) {
      SameAhead(b, qtype, t, i, j, n - j);
    }
  }

  lemma AddNew(cs: seq<Record>, adds: seq<Record>)
    requires |adds| == 1 && forall i :: 0 <= i < |cs| ==> !Duplicate(adds[0], cs[i])
    ensures AddAll(cs, adds, |adds|) == cs + adds
  {
    hide Duplicate;
    assert AddAll(cs, adds, 1) == Add(AddAll(cs, adds, 0), adds[0]) == Add(cs, adds[0]);
  }

  lemma TrailNew(b: Backend, qtype: u16, t: Name, k: nat, n: nat, i: nat, c: Record)
    requires Orderly(b) && i < k < n && Ends(b, qtype, t, n) && c.content == Target(b, qtype, t, k + 1)
    ensures |Trail(b, qtype, t, k)| == k && !Duplicate(c, Trail(b, qtype, t, k)[i])
  {
    hide Judge, Orderly, SameText, Trail, Target, Redirects;
    TrailTargets(b, qtype, t, k, i);
    NoRevisit(b, qtype, t, i + 1, k + 1, n);
  }

  lemma TrailGrows(b: Backend, qtype: u16, t: Name, k: nat, n: nat)
    requires Orderly(b) && k < n && Ends(b, qtype, t, n)
    ensures
      var v := Judge(b, qtype, Target(b, qtype, t, k));
      v.Redirect? && Target(b, qtype, t, k + 1) == v.next
      && AddAll(Trail(b, qtype, t, k), v.adds, |v.adds|) == Trail(b, qtype, t, k + 1)
  {
    hide Judge, Orderly, SameText, AddAll, Duplicate;
    assert Redirects(b, qtype, t, k);
    var v := Judge(b, qtype, Target(b, qtype, t, k));
    RedirectSingle(b, qtype, Target(b, qtype, t, k));
    var cs := Trail(b, qtype, t, k);
    TrailChain(b, qtype, t, k);
    forall i | 0 <= i < |cs|
      ensures !Duplicate(v.adds[0], cs[i])
    {
      TrailNew(b, qtype, t, k, n, i, v.adds[0]);
    }
    AddNew(cs, v.adds);
  }

  lemma {:induction false} FollowRecords(b: Backend, qtype: u16, t: Name, k: nat, n: nat)
    requires Orderly(b) && k <= n <= 10 && Ends(b, qtype, t, n)
    ensures Follow(b, qtype, Target(b, qtype, t, k), k, Trail(b, qtype, t, k))
      == Finish(Judge(b, qtype, Target(b, qtype, t, n)), n, Trail(b, qtype, t, n))
    decreases n - k
  {
    hide Judge, AddAll, Orderly, Trail, Target;
    if k < n {
      TrailGrows(b, qtype, t, k, n);
      FollowRecords(b, qtype, t, k + 1, n);
    }
  }

  lemma {:induction false} AddAllKeeps(records: seq<Record>, adds: seq<Record>, n: nat)
    requires n <= |adds|
    ensures records <= AddAll(records, adds, n)
  {
    if n > 0 {
      AddAllKeeps(records, adds, n - 1);
    }
  }

  /** Unless the loop gives up, the reply starts with the CNAMEs it followed, all of them and in order:
      a chain from the asked name to the final target, after which come that target's own records. */
  lemma RepliesWithChain(b: Backend, qtype: u16, qname: Name)
    requires Orderly(b) && Follow(b, qtype, qname, 0, []).rcode != ServFail
    ensures
      var r := Follow(b, qtype, qname, 0, []);
      var n := r.passes - 1;
      && 0 <= n <= 10 && n <= |r.records|
      && Chain(r.records[..n], qname, Target(b, qtype, qname, n))
      && !Judge(b, qtype, Target(b, qtype, qname, n)).Redirect?
      && r == Finish(Judge(b, qtype, Target(b, qtype, qname, n)), n, r.records[..n])
  {
    hide Follow, Judge, Redirects, Orderly, Trail, Target, Chain, AddAll;
    ServFailIff(b, qtype, qname);
    var r := Follow(b, qtype, qname, 0, []);
    var n := r.passes - 1;
    EndIs(b, qtype, qname, n);
    TrailNone(b, qtype, qname);
    FollowRecords(b, qtype, qname, 0, n);
    TrailChain(b, qtype, qname, n);
    var v := Judge(b, qtype, Target(b, qtype, qname, n));
    if v.Final? {
      AddAllKeeps(Trail(b, qtype, qname, n), v.adds, |v.adds|);
    }
    assert r == Finish(v, n, Trail(b, qtype, qname, n));
    assert r.records[..n] == Trail(b, qtype, qname, n);
  }

  lemma EndIs(b: Backend, qtype: u16, t: Name, n: int)
    requires 0 <= n && Ends(b, qtype, t, n)
    ensures !Judge(b, qtype, Target(b, qtype, t, n)).Redirect?
  {
  }
}
