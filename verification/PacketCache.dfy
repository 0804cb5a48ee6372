/** The packet cache: an index ordered by a composite key whose first part is the name, compared from
    its last character backwards without regard to case; and the purge of a whole zone, which relies on
    that order. */
module PacketCache {
  import opened Bytes
  import opened Lexicographic

  const DOLLAR: byte := 36

  // ---- the order of names ----

  /** The value of a byte held in a char, which is signed. */
  function Signed(c: byte): (i: int)
  {
    if c < 128 then c else c - 256
  }

  /** The name as the comparator sees it: backwards, lower case. */
  function KeyOf(s: seq<byte>): (k: seq<int>)
    ensures |k| == |s|
    ensures forall i :: 0 <= i < |s| ==> k[i] == Signed(LowerByte(s[|s| - 1 - i]))
  {
    seq(|s|, i requires 0 <= i < |s| => Signed(LowerByte(s[|s| - 1 - i])))
  }

  /** CIBackwardsStringCompare. */
  method Compare(a: seq<byte>, b: seq<byte>) returns (less: bool)
    ensures less == Lex(KeyOf(a), KeyOf(b))
  {
    var ra, rb := |a|, |b|;
    ghost var d := 0;
    while ra > 0 && rb > 0 && LowerByte(a[ra - 1]) == LowerByte(b[rb - 1])
      invariant d <= |a| && d <= |b| && ra == |a| - d && rb == |b| - d
      invariant forall j :: 0 <= j < d ==> KeyOf(a)[j] == KeyOf(b)[j]
    {
      ra, rb, d := ra - 1, rb - 1, d + 1;
    }
    var x, y := KeyOf(a), KeyOf(b);
    assert d < |x| && d < |y| ==> x[d] != y[d];
    ghost var e := Diff(x, y, 0);
    assert !(e < d) && !(d < e);
    if ra > 0 && rb == 0 {
      return false;
    }
    if rb > 0 && ra == 0 {
      return true;
    }
    if ra == 0 {
      return false;
    }
    return Signed(LowerByte(a[ra - 1])) < Signed(LowerByte(b[rb - 1]));
  }

  lemma KeysEqual(a: seq<byte>, b: seq<byte>)
    ensures KeyOf(a) == KeyOf(b) <==> SameText(a, b)
  {
    if KeyOf(a) == KeyOf(b) {
      assert |a| == |b|;
      forall i | 0 <= i < |a| ensures Lower(a)[i] == Lower(b)[i] {
        assert KeyOf(a)[|a| - 1 - i] == KeyOf(b)[|a| - 1 - i];
      }
    }
    if SameText(a, b) {
      assert |Lower(a)| == |Lower(b)|;
      forall i | 0 <= i < |a| ensures KeyOf(a)[i] == KeyOf(b)[i] {
        assert Lower(a)[|a| - 1 - i] == Lower(b)[|a| - 1 - i];
      }
    }
  }

  predicate NameLess(a: seq<byte>, b: seq<byte>)
  {
    Lex(KeyOf(a), KeyOf(b))
  }

  /** The comparator is a strict weak order, and names neither of which is less are those equal up to case. */
  lemma StrictWeakOrder(a: seq<byte>, b: seq<byte>, c: seq<byte>)
    ensures !NameLess(a, a)
    ensures NameLess(a, b) ==> !NameLess(b, a)
    ensures NameLess(a, b) && NameLess(b, c) ==> NameLess(a, c)
    ensures !NameLess(a, b) && !NameLess(b, a) <==> SameText(a, b)
    ensures NameLess(a, b) ==> NameLess(a, c) || NameLess(c, b)
  {
    hide Lex;
    var x, y, z := KeyOf(a), KeyOf(b), KeyOf(c);
    LexTotal(x, y);
    LexTotal(x, z);
    LexTotal(z, y);
    KeysEqual(a, b);
    if Lex(x, y) && Lex(y, z) {
      LexTransitive(x, y, z);
    }
    if Lex(x, y) && Lex(z, x) {
      LexTransitive(z, x, y);
    }
  }

  // ---- entries ----

  /** rest: type, kind, zone id, recursion, reply length, DNSSEC, compared in this order as numbers. */
  datatype Entry = Entry(qname: seq<byte>, rest: seq<int>, ttd: int, value: seq<byte>)

  predicate KeyLess(n: seq<int>, r: seq<int>, e: Entry)
  {
    Lex(n, KeyOf(e.qname)) || (n == KeyOf(e.qname) && Lex(r, e.rest))
  }

  predicate SameKey(a: Entry, b: Entry)
  {
    KeyOf(a.qname) == KeyOf(b.qname) && a.rest == b.rest
  }

  predicate Before(a: Entry, b: Entry)
  {
    KeyLess(KeyOf(a.qname), a.rest, b)
  }

  lemma BeforeTotal(a: Entry, b: Entry)
    ensures !Before(a, a)
    ensures Before(a, b) ==> !Before(b, a) && !SameKey(a, b)
    ensures !SameKey(a, b) ==> Before(a, b) || Before(b, a)
  {
    hide Lex;
    LexTotal(KeyOf(a.qname), KeyOf(b.qname));
    LexTotal(a.rest, b.rest);
  }

  lemma BeforeTransitive(a: Entry, b: Entry, c: Entry)
    requires Before(a, b) && Before(b, c)
    ensures Before(a, c)
  {
    hide Lex;
    if Lex(KeyOf(a.qname), KeyOf(b.qname)) && Lex(KeyOf(b.qname), KeyOf(c.qname)) {
      LexTransitive(KeyOf(a.qname), KeyOf(b.qname), KeyOf(c.qname));
    } else if Lex(a.rest, b.rest) && Lex(b.rest, c.rest) {
      LexTransitive(a.rest, b.rest, c.rest);
    }
  }

  /** The ordered unique index. */
  ghost predicate Sorted(es: seq<Entry>)
  {
    forall i, j :: 0 <= i < j < |es| ==> Before(es[i], es[j])
  }

  lemma NameOrder(es: seq<Entry>, i: nat, j: nat)
    requires Sorted(es) && i <= j < |es|
    ensures !Lex(KeyOf(es[j].qname), KeyOf(es[i].qname))
  {
    hide Lex;
    LexTotal(KeyOf(es[j].qname), KeyOf(es[i].qname));
    if i < j {
      assert Before(es[i], es[j]);
    }
  }

  // ---- purging a zone ----

  /** iends_with. */
  predicate EndsOn(n: seq<byte>, t: seq<byte>)
  {
    |t| <= |n| && SameText(n[|n| - |t|..], t)
  }

  predicate InZone(n: seq<byte>, suffix: seq<byte>)
  {
    SameText(n, suffix) || EndsOn(n, [DOT] + suffix)
  }

  /** The suffix, preceded by a character that sorts below the dot. */
  predicate Blocker(n: seq<byte>, suffix: seq<byte>)
  {
    EndsOn(n, suffix) && |suffix| < |n| && Signed(LowerByte(n[|n| - |suffix| - 1])) < DOT
  }

  /** lower_bound on the name alone. */
  function LowerBound(es: seq<Entry>, k: seq<int>, i: nat): (p: nat)
    requires i <= |es|
    ensures i <= p <= |es| && (p < |es| ==> !Lex(KeyOf(es[p].qname), k))
    ensures forall j :: i <= j < p ==> Lex(KeyOf(es[j].qname), k)
    decreases |es| - i
  {
    if i == |es| || !Lex(KeyOf(es[i].qname), k) then i else LowerBound(es, k, i + 1)
  }

  /** The end of the run of zone names. */
  function RunEnd(es: seq<Entry>, suffix: seq<byte>, i: nat): (p: nat)
    requires i <= |es|
    ensures i <= p <= |es| && (p < |es| ==> !InZone(es[p].qname, suffix))
    ensures forall j :: i <= j < p ==> InZone(es[j].qname, suffix)
    decreases |es| - i
  {
    if i == |es| || !InZone(es[i].qname, suffix) then i else RunEnd(es, suffix, i + 1)
  }

  function PurgedZone(es: seq<Entry>, suffix: seq<byte>): (r: seq<Entry>)
  {
    var start := LowerBound(es, KeyOf(suffix), 0);
    es[..start] + es[RunEnd(es, suffix, start)..]
  }

  lemma EndsOnKey(n: seq<byte>, t: seq<byte>)
    ensures EndsOn(n, t) <==> KeyOf(t) <= KeyOf(n)
  {
    if |t| <= |n| {
      var tail := n[|n| - |t|..];
      KeysEqual(tail, t);
      assert KeyOf(tail) == KeyOf(n)[..|t|];
    }
  }

  /** Zone names and blockers told from their keys. */
  lemma ZoneKeys(n: seq<byte>, suffix: seq<byte>)
    ensures
      var k, x := KeyOf(suffix), KeyOf(n);
      && (InZone(n, suffix) <==> x == k || (k <= x && |x| > |k| && x[|k|] == DOT))
      && (Blocker(n, suffix) <==> k <= x && |x| > |k| && x[|k|] < DOT)
      && (SameText(n, suffix) <==> x == k)
  {
    hide SameText, EndsOn;
    var k, x := KeyOf(suffix), KeyOf(n);
    KeysEqual(n, suffix);
    EndsOnKey(n, suffix);
    EndsOnKey(n, [DOT] + suffix);
    assert KeyOf([DOT] + suffix) == k + [46];
    assert k + [46] <= x <==> k <= x && |x| > |k| && x[|k|] == 46 by {
      if k <= x && |x| > |k| && x[|k|] == 46 {
        assert x[..|k| + 1] == k + [46];
      }
    }
  }

  lemma PrefixNotLess(k: seq<int>, x: seq<int>)
    requires k <= x
    ensures !Lex(x, k)
  {
  }

  lemma AboveAll(k: seq<int>, x: seq<int>, y: seq<int>)
    requires k <= y && !Lex(x, k) && Diff(x, k, 0) < |k|
    ensures Lex(y, x)
  {
    hide Diff;
    LexAt(y, x, Diff(x, k, 0));
  }

  /** A key between the suffix's key and a longer one that starts with it, starts with it too. */
  lemma Squeezed(k: seq<int>, x: seq<int>, y: seq<int>)
    requires k <= y && |k| < |y| && !Lex(x, k) && !Lex(y, x)
    ensures k <= x && (|x| > |k| ==> x[|k|] <= y[|k|])
  {
    hide Diff;
    if Diff(x, k, 0) < |k| {
      AboveAll(k, x, y);
    }
    assert forall j :: 0 <= j < |k| ==> k[j] == x[j];
    assert x[..|k|] == k;
    var e := Diff(y, x, 0);
    assert !(e < |k|);
  }

  lemma Between(es: seq<Entry>, suffix: seq<byte>, i: nat, j: nat)
    requires Sorted(es) && LowerBound(es, KeyOf(suffix), 0) <= i <= j < |es| && InZone(es[j].qname, suffix)
    ensures InZone(es[i].qname, suffix) || Blocker(es[i].qname, suffix)
    ensures SameText(es[j].qname, suffix) ==> InZone(es[i].qname, suffix)
  {
    hide Lex, LowerBound, InZone, Blocker, Sorted;
    var k, x, y := KeyOf(suffix), KeyOf(es[i].qname), KeyOf(es[j].qname);
    var start := LowerBound(es, k, 0);
    ZoneKeys(es[i].qname, suffix);
    ZoneKeys(es[j].qname, suffix);
    NameOrder(es, start, i);
    NameOrder(es, i, j);
    StartNotLess(es, k, i);
    if y == k {
      LexTotal(x, k);
    } else {
      Squeezed(k, x, y);
    }
  }

  /** From the lower bound on, no name is less. */
  lemma StartNotLess(es: seq<Entry>, k: seq<int>, i: nat)
    requires Sorted(es) && LowerBound(es, k, 0) <= i < |es|
    ensures !Lex(KeyOf(es[i].qname), k)
  {
    hide Lex, LowerBound, Sorted;
    var s := KeyOf(es[LowerBound(es, k, 0)].qname);
    var x := KeyOf(es[i].qname);
    NameOrder(es, LowerBound(es, k, 0), i);
    LexTotal(s, x);
    if Lex(x, k) && Lex(s, x) {
      LexTransitive(s, x, k);
    }
  }

  lemma ZoneFromStart(es: seq<Entry>, suffix: seq<byte>, i: nat)
    requires i < |es| && (InZone(es[i].qname, suffix) || Blocker(es[i].qname, suffix))
    ensures LowerBound(es, KeyOf(suffix), 0) <= i
  {
    hide Lex, LowerBound, InZone, Blocker;
    ZoneKeys(es[i].qname, suffix);
    PrefixNotLess(KeyOf(suffix), KeyOf(es[i].qname));
  }

  lemma BlockerFirst(es: seq<Entry>, suffix: seq<byte>, i: nat, j: nat)
    requires Sorted(es) && i < |es| && j < |es|
    requires Blocker(es[i].qname, suffix) && InZone(es[j].qname, suffix) && !SameText(es[j].qname, suffix)
    ensures i < j
  {
    hide Lex, InZone, Blocker, Sorted;
    var k, x, y := KeyOf(suffix), KeyOf(es[i].qname), KeyOf(es[j].qname);
    ZoneKeys(es[i].qname, suffix);
    ZoneKeys(es[j].qname, suffix);
    LexAt(x, y, |k|);
    if j <= i {
      NameOrder(es, j, i);
    }
  }

  lemma BlockerOutside(n: seq<byte>, suffix: seq<byte>)
    requires Blocker(n, suffix)
    ensures !InZone(n, suffix)
  {
    ZoneKeys(n, suffix);
  }

  ghost predicate BlockerCached(es: seq<Entry>, suffix: seq<byte>)
  {
    exists i :: 0 <= i < |es| && Blocker(es[i].qname, suffix)
  }

  /** Which entries a zone purge removes: none outside the zone; the zone's own name always; the names
      below it exactly if no blocker is cached. */
  lemma PurgeRemoves(es: seq<Entry>, suffix: seq<byte>, i: nat)
    requires Sorted(es) && i < |es|
    ensures
      var start := LowerBound(es, KeyOf(suffix), 0);
      var n := es[i].qname;
      start <= i < RunEnd(es, suffix, start) <==>
        InZone(n, suffix) && (SameText(n, suffix) || !BlockerCached(es, suffix))
  {
    hide LowerBound, RunEnd, InZone, Blocker, SameText, Sorted, Lex;
    var start := LowerBound(es, KeyOf(suffix), 0);
    var stop := RunEnd(es, suffix, start);
    var n := es[i].qname;
    if InZone(n, suffix) {
      ZoneFromStart(es, suffix, i);
      if i >= stop {
        Between(es, suffix, stop, i);
      }
      if b :| 0 <= b < |es| && Blocker(es[b].qname, suffix) {
        ZoneFromStart(es, suffix, b);
        BlockerOutside(es[b].qname, suffix);
        if !SameText(n, suffix) {
          BlockerFirst(es, suffix, b, i);
        }
      }
    }
  }

  lemma CutAt(es: seq<Entry>, start: nat, stop: nat, m: nat)
    requires start <= stop <= |es| && m < |es| - (stop - start)
    ensures (es[..start] + es[stop..])[m] == es[if m < start then m else m + (stop - start)]
  {
  }

  lemma CutKeeps(es: seq<Entry>, start: nat, stop: nat, i: nat)
    requires start <= stop <= |es| && i < |es| && !(start <= i < stop)
    ensures (es[..start] + es[stop..])[if i < start then i else i - (stop - start)] == es[i]
  {
  }

  lemma CutSorted(es: seq<Entry>, start: nat, stop: nat)
    requires start <= stop <= |es| && Sorted(es)
    ensures Sorted(es[..start] + es[stop..])
  {
    hide Before;
    var r := es[..start] + es[stop..];
    forall i, j | 0 <= i < j < |r|
      ensures Before(r[i], r[j])
    {
      CutAt(es, start, stop, i);
      CutAt(es, start, stop, j);
    }
  }

  lemma CutMembers(es: seq<Entry>, start: nat, stop: nat, e: Entry)
    requires start <= stop <= |es|
    ensures e in es[..start] + es[stop..] <==> exists i :: 0 <= i < |es| && !(start <= i < stop) && es[i] == e
  {
    var r := es[..start] + es[stop..];
    if e in r {
      var m :| 0 <= m < |r| && r[m] == e;
      CutAt(es, start, stop, m);
    }
    if i :| 0 <= i < |es| && !(start <= i < stop) && es[i] == e {
      CutKeeps(es, start, stop, i);
    }
  }

  /** What remains after a zone purge. */
  lemma PurgeKeeps(es: seq<Entry>, suffix: seq<byte>, e: Entry)
    requires Sorted(es)
    ensures Sorted(PurgedZone(es, suffix))
    ensures e in PurgedZone(es, suffix) <==>
      e in es && !(InZone(e.qname, suffix) && (SameText(e.qname, suffix) || !BlockerCached(es, suffix)))
  {
    hide LowerBound, RunEnd, InZone, Blocker, SameText, BlockerCached, Sorted;
    var start := LowerBound(es, KeyOf(suffix), 0);
    var stop := RunEnd(es, suffix, start);
    CutSorted(es, start, stop);
    CutMembers(es, start, stop, e);
    forall i | 0 <= i < |es|
      ensures start <= i < stop <==>
        InZone(es[i].qname, suffix) && (SameText(es[i].qname, suffix) || !BlockerCached(es, suffix))
    {
      PurgeRemoves(es, suffix, i);
    }
  }

  /** A purge of a zone removes exactly the zone's entries if and only if no blocker is cached beside a
      name below the zone's own. */
  lemma PurgeExactIff(es: seq<Entry>, suffix: seq<byte>)
    requires Sorted(es)
    ensures (forall e :: e in PurgedZone(es, suffix) <==> e in es && !InZone(e.qname, suffix))
      <==> !(BlockerCached(es, suffix) && exists e :: e in es && InZone(e.qname, suffix) && !SameText(e.qname, suffix))
  {
    hide LowerBound, RunEnd, InZone, Blocker, SameText, BlockerCached, PurgedZone;
    forall e
      ensures e in PurgedZone(es, suffix) <==>
        e in es && !(InZone(e.qname, suffix) && (SameText(e.qname, suffix) || !BlockerCached(es, suffix)))
    {
      PurgeKeeps(es, suffix, e);
    }
  }

  /** A purge of a zone never removes a name outside it. */
  lemma PurgeSafe(es: seq<Entry>, suffix: seq<byte>, e: Entry)
    requires Sorted(es) && e in es && !InZone(e.qname, suffix)
    ensures e in PurgedZone(es, suffix)
  {
    PurgeKeeps(es, suffix, e);
  }

  /** If a blocker is cached and the zone's own name is not, a purge of the zone removes nothing. */
  lemma BlockedPurge(es: seq<Entry>, suffix: seq<byte>)
    requires Sorted(es) && BlockerCached(es, suffix) && forall e :: e in es ==> !SameText(e.qname, suffix)
    ensures PurgedZone(es, suffix) == es
  {
    hide LowerBound, RunEnd, InZone, SameText, Sorted, BlockerCached;
    var start := LowerBound(es, KeyOf(suffix), 0);
    if start < |es| {
      assert es[start] in es;
      PurgeRemoves(es, suffix, start);
    }
    assert es[..start] + es[start..] == es;
  }

  // ---- the object ----

  /** The index after an insertion: the new entry in place of any with its key. */
  ghost predicate Stored(es: seq<Entry>, r: seq<Entry>, val: Entry)
  {
    forall e :: e in r <==> e == val || (e in es && !SameKey(e, val))
  }

  class PacketCache {
    var entries: seq<Entry>

    constructor ()
      ensures entries == []
    {
      entries := [];
    }

    ghost predicate Valid()
      reads this
    {
      Sorted(entries)
    }

    /** Inserts or replaces an entry, unless the lock is taken or the time to live is zero. */
    method Insert(qname: seq<byte>, rest: seq<int>, value: seq<byte>, ttl: nat, now: int, gotLock: bool)
      requires Valid()
      modifies this
      ensures Valid()
      ensures ttl == 0 || !gotLock ==> entries == old(entries)
      ensures ttl != 0 && gotLock ==>
        Stored(old(entries), entries, Entry(qname, rest, now + ttl, value))
    {
      hide SameKey, Before, Stored, Sorted;
      if ttl == 0 || !gotLock {
        return;
      }
      var val := Entry(qname, rest, now + ttl, value);
      var i := 0;
      while i < |entries| && Before(entries[i], val)
        invariant i <= |entries|
        invariant forall j :: 0 <= j < i ==> Before(entries[j], val)
      {
        i := i + 1;
      }
      if i < |entries| && SameKey(entries[i], val) {
        ReplaceSorted(entries, i, val);
        entries := entries[i := val];
      } else {
        InsertSorted(entries, i, val);
        entries := entries[..i] + [val] + entries[i..];
      }
    }

    /** getEntryLocked: the value of the entry under this key if it has not expired. */
    method GetEntry(qname: seq<byte>, rest: seq<int>, now: int) returns (value: Option<seq<byte>>)
      requires Valid()
      ensures forall e :: e in entries && KeyOf(e.qname) == KeyOf(qname) && e.rest == rest ==>
        value == if e.ttd > now then Some(e.value) else None
      ensures (forall e :: e in entries ==> KeyOf(e.qname) != KeyOf(qname) || e.rest != rest) ==> value == None
    {
      var i := 0;
      while i < |entries|
        invariant i <= |entries|
        invariant forall j :: 0 <= j < i ==> KeyOf(entries[j].qname) != KeyOf(qname) || entries[j].rest != rest
      {
        if KeyOf(entries[i].qname) == KeyOf(qname) && entries[i].rest == rest {
          OnlyOne(entries, i);
          return if entries[i].ttd > now then Some(entries[i].value) else None;
        }
        i := i + 1;
      }
      return None;
    }

    /** purge: of a zone if the argument ends in a dollar sign, else of one name. */
    method Purge(pattern: seq<byte>) returns (delcount: int)
      requires Valid()
      modifies this
      ensures Valid() && delcount == |old(entries)| - |entries|
      ensures pattern != [] && pattern[|pattern| - 1] == DOLLAR ==>
        entries == PurgedZone(old(entries), pattern[..|pattern| - 1])
      ensures pattern == [] || pattern[|pattern| - 1] != DOLLAR ==>
        forall e :: e in entries <==> e in old(entries) && !SameText(e.qname, pattern)
    {
      hide LowerBound, InZone, Lex, SameText, RunEnd, Sorted;
      if pattern != [] && pattern[|pattern| - 1] == DOLLAR {
        var suffix := pattern[..|pattern| - 1];
        var start := LowerBound(entries, KeyOf(suffix), 0);
        var iter := start;
        delcount := 0;
        while iter < |entries| && InZone(entries[iter].qname, suffix)
          invariant start <= iter <= |entries| && delcount == iter - start
          invariant forall j :: start <= j < iter ==> InZone(entries[j].qname, suffix)
        {
          delcount := delcount + 1;
          iter := iter + 1;
        }
        RunEndIs(entries, suffix, start, iter);
        CutSorted(entries, start, iter);
        entries := entries[..start] + entries[iter..];
        return;
      }
      var start := LowerBound(entries, KeyOf(pattern), 0);
      var iter := start;
      while iter < |entries| && !Lex(KeyOf(pattern), KeyOf(entries[iter].qname))
        invariant start <= iter <= |entries|
        invariant forall j :: start <= j < iter ==> !Lex(KeyOf(pattern), KeyOf(entries[j].qname))
      {
        iter := iter + 1;
      }
      EqualRange(entries, pattern, iter);
      delcount := iter - start;
      entries := entries[..start] + entries[iter..];
    }
  }

  const SUFFIX: seq<byte> := [112, 46, 99]
  const BESIDE: seq<byte> := [117, 45] + SUFFIX
  const BELOW: seq<byte> := [119, 46] + SUFFIX

  lemma DashNames()
    ensures Blocker(BESIDE, SUFFIX) && InZone(BELOW, SUFFIX) && KeyOf(BESIDE) != KeyOf(BELOW)
    ensures !SameText(BESIDE, SUFFIX) && !SameText(BELOW, SUFFIX)
  {
    assert BESIDE[|BESIDE| - 3..] == SUFFIX && BELOW[|BELOW| - 4..] == [DOT] + SUFFIX;
    assert KeyOf(BESIDE)[3] == 45 && KeyOf(BELOW)[3] == 46;
    assert |Lower(BESIDE)| == 5 && |Lower(BELOW)| == 5 && |Lower(SUFFIX)| == 3;
  }

  /** "u-p.c" and "w.p.c" are cached, under any types and other key fields; then a purge of "p.c$" removes
      nothing, and "w.p.c" is still there. */
  method DashBlocks(rest1: seq<int>, rest2: seq<int>, value1: seq<byte>, value2: seq<byte>, ttl: nat, now: int)
    returns (cache: PacketCache, delcount: int)
    requires |rest1| == |rest2| == 6 && ttl > 0
    ensures cache.Valid() && delcount == 0
    ensures InZone(BELOW, SUFFIX) && Entry(BELOW, rest2, now + ttl, value2) in cache.entries
  {
    DashNames();
    hide Sorted, InZone, Blocker, SameText, KeyOf, PurgedZone;
    cache := new PacketCache();
    NoneSorted();
    cache.Insert(BESIDE, rest1, value1, ttl, now, true);
    cache.Insert(BELOW, rest2, value2, ttl, now, true);
    ghost var es := cache.entries;
    ghost var beside := Entry(BESIDE, rest1, now + ttl, value1);
    assert beside in es && Entry(BELOW, rest2, now + ttl, value2) in es;
    BlockedBy(es, beside);
    BlockedPurge(es, SUFFIX);
    delcount := cache.Purge(SUFFIX + [DOLLAR]);
    assert (SUFFIX + [DOLLAR])[..3] == SUFFIX;
  }

  lemma NoneSorted()
    ensures Sorted([])
  {
  }

  lemma BlockedBy(es: seq<Entry>, e: Entry)
    requires e in es && Blocker(e.qname, SUFFIX)
    ensures BlockerCached(es, SUFFIX)
  {
    hide Blocker;
    var i :| 0 <= i < |es| && es[i] == e;
  }

  lemma RunEndIs(es: seq<Entry>, suffix: seq<byte>, i: nat, p: nat)
    requires i <= p <= |es| && forall j :: i <= j < p ==> InZone(es[j].qname, suffix)
    requires p < |es| ==> !InZone(es[p].qname, suffix)
    ensures RunEnd(es, suffix, i) == p
  {
    hide RunEnd, InZone;
    var q := RunEnd(es, suffix, i);
    assert !(q < p) && !(p < q);
  }

  lemma OnlyOne(es: seq<Entry>, i: nat)
    requires Sorted(es) && i < |es|
    ensures forall e :: e in es && SameKey(e, es[i]) ==> e == es[i]
  {
    hide Before, SameKey;
    forall e | e in es && SameKey(e, es[i]) ensures e == es[i] {
      var j :| 0 <= j < |es| && es[j] == e;
      BeforeTotal(es[i], e);
      BeforeTotal(e, es[i]);
      SameKeySym(e, es[i]);
    }
  }

  lemma SameKeySym(a: Entry, b: Entry)
    ensures SameKey(a, b) <==> SameKey(b, a)
  {
  }

  lemma ReplaceSorted(es: seq<Entry>, i: nat, val: Entry)
    requires Sorted(es) && i < |es| && SameKey(es[i], val)
    ensures Sorted(es[i := val])
    ensures Stored(es, es[i := val], val)
  {
    hide Lex;
    var r := es[i := val];
    OnlyOne(es, i);
    forall e | e in es && !SameKey(e, val) ensures e in r {
      var j :| 0 <= j < |es| && es[j] == e;
      assert r[j] == e;
    }
    assert r[i] == val;
    forall e | e in r && e != val ensures e in es && !SameKey(e, val) {
      var j :| 0 <= j < |r| && r[j] == e;
      BeforeTotal(es[i], es[j]);
      BeforeTotal(es[j], es[i]);
    }
  }

  lemma InsertSorted(es: seq<Entry>, i: nat, val: Entry)
    requires Sorted(es) && i <= |es| && (forall j :: 0 <= j < i ==> Before(es[j], val))
    requires i < |es| ==> !Before(es[i], val) && !SameKey(es[i], val)
    ensures Sorted(es[..i] + [val] + es[i..])
    ensures Stored(es, es[..i] + [val] + es[i..], val)
  {
    hide Before, SameKey;
    var r := es[..i] + [val] + es[i..];
    forall j | i <= j < |es| ensures Before(val, es[j]) {
      BeforeTotal(es[i], val);
      if i < j {
        BeforeTransitive(val, es[i], es[j]);
      }
    }
    forall j | 0 <= j < |es| ensures !SameKey(es[j], val) && es[j] in r {
      BeforeTotal(es[j], val);
      BeforeTotal(val, es[j]);
      SameKeySym(es[j], val);
      assert r[if j < i then j else j + 1] == es[j];
    }
    assert r[i] == val;
  }

  /** The equal range of a name holds exactly the entries under it, and the rest stays in order. */
  lemma EqualRange(es: seq<Entry>, name: seq<byte>, stop: nat)
    requires Sorted(es) && LowerBound(es, KeyOf(name), 0) <= stop <= |es|
    requires forall j :: LowerBound(es, KeyOf(name), 0) <= j < stop ==> !Lex(KeyOf(name), KeyOf(es[j].qname))
    requires stop < |es| ==> Lex(KeyOf(name), KeyOf(es[stop].qname))
    ensures
      var r := es[..LowerBound(es, KeyOf(name), 0)] + es[stop..];
      Sorted(r) && forall e :: e in r <==> e in es && !SameText(e.qname, name)
  {
    hide Lex, LowerBound, Sorted, SameText;
    var k := KeyOf(name);
    var start := LowerBound(es, k, 0);
    var r := es[..start] + es[stop..];
    forall j | 0 <= j < |es|
      ensures SameText(es[j].qname, name) <==> start <= j < stop
    {
      var x := KeyOf(es[j].qname);
      KeysEqual(es[j].qname, name);
      LexTotal(x, k);
      if start <= j {
        StartNotLess(es, k, j);
      }
      if stop <= j {
        NameOrder(es, stop, j);
      }
    }
    CutSorted(es, start, stop);
    forall e
      ensures e in r <==> e in es && !SameText(e.qname, name)
    {
      CutMembers(es, start, stop, e);
    }
  }
}
