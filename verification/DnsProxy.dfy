/** The DNS proxy: questions passed on to a recursor under an id of our own, and the replies matched to
    the clients that asked. The table of outstanding questions reuses ids that are stale or answered. */
module DnsProxy {
  import Bits
  import opened Bytes

  const SLOTS := 0x10000
  const TIMEOUT := 60

  /** What a client asked. */
  datatype Question = Question(id: u16, remote: int, qname: seq<byte>, qtype: u16)

  /** An entry of d_conntrack; created 0 means answered. */
  datatype Entry = Entry(id: u16, remote: int, created: int, qname: seq<byte>, qtype: u16)

  /** A packet on the wire to or from the recursor, its id as sent. */
  datatype Packet = Packet(id: u16, qname: seq<byte>, qtype: u16)

  /** A reply passed on to a client, with the client's id. */
  datatype Forward = Forward(id: u16, remote: int, qname: seq<byte>, qtype: u16)

  type Table = map<int, Entry>

  predicate Stale(e: Entry, now: int)
  {
    e.created < now - TIMEOUT
  }

  predicate Usable(t: Table, id: int, now: int)
  {
    id !in t || Stale(t[id], now)
  }

  /** Whether the number n, which may be beyond 16 bits, has no entry or a stale one. */
  predicate Free(t: Table, n: nat, now: int)
  {
    n >= SLOTS || Usable(t, n, now)
  }

  function FirstFree(t: Table, n: nat, now: int): (r: nat)
    requires n <= SLOTS
    ensures n <= r <= SLOTS && Free(t, r, now)
    ensures forall j :: n <= j < r ==> !Free(t, j, now)
    decreases SLOTS - n
  {
    if Free(t, n, now) then n else FirstFree(t, n + 1, now)
  }

  /** getID_locked gives an int, but it is stored in 16 bits. */
  function PickId(t: Table, now: int): (id: u16)
  {
    FirstFree(t, 0, now) % SLOTS
  }

  function Tracked(q: Question, now: int): (e: Entry)
  {
    Entry(q.id, q.remote, now, q.qname, q.qtype)
  }

  /** An entry that waits for an answer and has not timed out. */
  predicate Live(t: Table, id: int, now: int)
  {
    id in t && t[id].created != 0 && !Stale(t[id], now)
  }

  /** Every id is taken. */
  ghost predicate Full(t: Table, now: int)
  {
    forall n: nat :: n < SLOTS ==> !Free(t, n, now)
  }

  /** The id picked for a new question is free unless all are taken; then it is 0. */
  lemma PickFree(t: Table, now: int)
    ensures if Full(t, now) then PickId(t, now) == 0 else Usable(t, PickId(t, now), now)
  {
    hide Usable;
    var r := FirstFree(t, 0, now);
    if Full(t, now) {
      assert r == SLOTS;
    }
  }

  /** Sending a question displaces a live entry exactly if that entry has id 0 and every id is taken. */
  lemma DisplacesIff(t: Table, id: int, now: int)
    requires Live(t, id, now)
    ensures PickId(t, now) == id <==> id == 0 && Full(t, now)
  {
    hide PickId, Full;
    PickFree(t, now);
  }

  /** An id is free if it was never given out, or its entry is older than 60 seconds. */
  lemma UsableIs(t: Table, id: int, now: int)
    ensures Usable(t, id, now) <==> id !in t || t[id].created < now - 60
  {
  }

  /** All ids are taken exactly if each of the 65536 has an entry of the last 60 seconds. */
  lemma FullIs(t: Table, now: int)
    ensures Full(t, now) <==> forall n: int :: 0 <= n < 65536 ==> n in t && t[n].created >= now - 60
  {
    hide Usable;
    if Full(t, now) {
      forall n: int | 0 <= n < 65536
        ensures n in t && t[n].created >= now - 60
      {
        assert !Free(t, n, now);
        UsableIs(t, n, now);
      }
    } else {
      var n: nat :| n < SLOTS && Free(t, n, now);
      UsableIs(t, n, now);
    }
  }

  /** An answered question's id is free again. */
  lemma AnsweredFree(t: Table, id: int, now: int)
    requires id in t && t[id].created == 0 && now > 60
    ensures Usable(t, id, now)
  {
  }

  // ---- replies ----

  function Xor(a: u16, b: u16): (r: u16)
  {
    Bits.Pow2Values();
    Bits.Xor(a, b, 16)
  }

  lemma XorTwice(a: u16, b: u16)
    ensures Xor(Xor(a, b), b) == a
  {
    Bits.Pow2Values();
    Bits.XorTwice(a, b, 16);
  }

  function Slot(p: Packet, key: u16): (id: u16)
  {
    Xor(p.id, key)
  }

  /** The entry a reply is passed on for. */
  predicate Matches(t: Table, p: Packet, key: u16)
  {
    var id := Slot(p, key);
    id in t && t[id].created != 0 && p.qtype == t[id].qtype && p.qname == t[id].qname
  }

  /** What is sent on for a question. */
  function Outgoing(t: Table, q: Question, now: int, key: u16): (p: Packet)
  {
    Packet(Xor(PickId(t, now), key), q.qname, q.qtype)
  }

  /** A reply to what was sent on is passed on, with the client's id, as long as the entry is there. */
  lemma ReplyFinds(t: Table, q: Question, now: int, key: u16)
    requires now != 0
    ensures
      var t' := t[PickId(t, now) := Tracked(q, now)];
      var p := Outgoing(t, q, now, key);
      Slot(p, key) == PickId(t, now) && Matches(t', p, key)
  {
    hide PickId;
    var id := PickId(t, now);
    XorTwice(id, key);
  }

  // ---- runs ----

  /** Lock-protected steps: a client question is sent on, or a packet comes back. */
  datatype Step = Ask(q: Question, now: int) | Reply(p: Packet)

  datatype Asked = Asked(q: Question, at: int)

  datatype Answer = Answer(number: nat, forward: Forward)

  /** The table, with the number of the question each entry stands for, and the history of the run. */
  datatype Run = Run(table: Table, number: map<int, nat>, asked: seq<Asked>, answers: seq<Answer>)

  function Forwarded(e: Entry, p: Packet): (f: Forward)
  {
    Forward(e.id, e.remote, p.qname, p.qtype)
  }

  function Take(r: Run, step: Step, key: u16): (s: Run)
    requires r.table.Keys == r.number.Keys
  {
    match step
    case Ask(q, now) =>
      var id := PickId(r.table, now);
      Run(r.table[id := Tracked(q, now)], r.number[id := |r.asked|], r.asked + [Asked(q, now)], r.answers)
    case Reply(p) =>
      if Matches(r.table, p, key) then
        var n := Slot(p, key);
        var e := r.table[n];
        Run(r.table[n := e.(created := 0)], r.number, r.asked, r.answers + [Answer(r.number[n], Forwarded(e, p))])
      else r
  }

  /** An entry belongs to the question with its number, unanswered or marked as answered. */
  ghost predicate EntryOk(e: Entry, number: nat, asked: seq<Asked>)
  {
    && number < |asked|
    && var a := asked[number];
    && e.id == a.q.id && e.remote == a.q.remote && e.qname == a.q.qname && e.qtype == a.q.qtype
    && (e.created == a.at || e.created == 0)
  }

  /** An answer carries the id of the question it is for, and goes to the client that asked it. */
  ghost predicate AnswerOk(a: Answer, asked: seq<Asked>)
  {
    && a.number < |asked|
    && var q := asked[a.number].q;
    && a.forward == Forward(q.id, q.remote, q.qname, q.qtype)
  }

  predicate Answered(answers: seq<Answer>, number: nat)
  {
    exists i :: 0 <= i < |answers| && answers[i].number == number
  }

  ghost predicate Inv(r: Run)
  {
    && r.table.Keys == r.number.Keys
    && (forall k :: k in r.table ==> EntryOk(r.table[k], r.number[k], r.asked))
    && (forall j, k :: j in r.number && k in r.number && j != k ==> r.number[j] != r.number[k])
    && (forall k :: k in r.table && Answered(r.answers, r.number[k]) ==> r.table[k].created == 0)
    && (forall i :: 0 <= i < |r.answers| ==> AnswerOk(r.answers[i], r.asked))
    && (forall i, j :: 0 <= i < j < |r.answers| ==> r.answers[i].number != r.answers[j].number)
  }

  lemma NewNumber(r: Run)
    requires Inv(r)
    ensures !Answered(r.answers, |r.asked|) && forall k :: k in r.number ==> r.number[k] != |r.asked|
  {
    forall i | 0 <= i < |r.answers| ensures r.answers[i].number != |r.asked| {
      assert AnswerOk(r.answers[i], r.asked);
    }
    forall k | k in r.number ensures r.number[k] != |r.asked| {
      assert EntryOk(r.table[k], r.number[k], r.asked);
    }
  }

  lemma AskKeeps(r: Run, q: Question, now: int, key: u16)
    requires Inv(r)
    ensures Inv(Take(r, Ask(q, now), key))
  {
    hide PickId, Answered;
    NewNumber(r);
    var s := Take(r, Ask(q, now), key);
    var id := PickId(r.table, now);
    forall k | k in s.table ensures EntryOk(s.table[k], s.number[k], s.asked) {
      if k != id {
        assert EntryOk(r.table[k], r.number[k], r.asked);
      }
    }
    forall i | 0 <= i < |s.answers| ensures AnswerOk(s.answers[i], s.asked) {
      assert AnswerOk(r.answers[i], r.asked);
    }
  }

  lemma AnsweredMore(answers: seq<Answer>, a: Answer, number: nat)
    ensures Answered(answers + [a], number) <==> Answered(answers, number) || a.number == number
  {
    if Answered(answers, number) {
      var i :| 0 <= i < |answers| && answers[i].number == number;
      assert (answers + [a])[i].number == number;
    }
    if a.number == number {
      assert (answers + [a])[|answers|].number == number;
    }
  }

  lemma ReplyKeeps(r: Run, p: Packet, key: u16)
    requires Inv(r)
    ensures Inv(Take(r, Reply(p), key))
  {
    if Matches(r.table, p, key) {
      hide Answered, Matches, Slot;
      var n := Slot(p, key);
      MatchFacts(r, p, key);
      var s := Take(r, Reply(p), key);
      var a := s.answers[|r.answers|];
      forall k | k in s.table
        ensures EntryOk(s.table[k], s.number[k], s.asked)
        ensures Answered(s.answers, s.number[k]) ==> s.table[k].created == 0
      {
        assert EntryOk(r.table[k], r.number[k], r.asked);
        AnsweredMore(r.answers, a, s.number[k]);
      }
      forall i | 0 <= i < |r.answers|
        ensures r.answers[i].number != a.number
      {
        assert !Answered(r.answers, a.number);
        AnsweredAt(r.answers, i);
      }
    }
  }

  lemma AnsweredAt(answers: seq<Answer>, i: nat)
    requires i < |answers|
    ensures Answered(answers, answers[i].number)
  {
  }

  lemma MatchFacts(r: Run, p: Packet, key: u16)
    requires Inv(r) && Matches(r.table, p, key)
    ensures
      var n := Slot(p, key);
      && n in r.table && r.table[n].created != 0
      && p.qtype == r.table[n].qtype && p.qname == r.table[n].qname
  {
  }

  function After(steps: seq<Step>, key: u16): (r: Run)
    ensures Inv(r)
    decreases |steps|
  {
    if steps == [] then Run(map[], map[], [], [])
    else
      var before := After(steps[..|steps| - 1], key);
      StepKeeps(before, steps[|steps| - 1], key);
      Take(before, steps[|steps| - 1], key)
  }

  lemma StepKeeps(r: Run, step: Step, key: u16)
    requires Inv(r)
    ensures Inv(Take(r, step, key))
  {
    match step
    case Ask(q, now) => AskKeeps(r, q, now, key);
    case Reply(p) => ReplyKeeps(r, p, key);
  }

  /** Over every run: each question is answered at most once, and every reply passed on carries the id
      of the question it answers, goes to the client that asked it, and has its name and type. */
  lemma AnsweredOnce(steps: seq<Step>, key: u16, i: nat, j: nat)
    ensures
      var r := After(steps, key);
      && (i < |r.answers| ==> AnswerOk(r.answers[i], r.asked))
      && (i < j < |r.answers| ==> r.answers[i].number != r.answers[j].number)
  {
    hide After, AnswerOk;
  }

  /** The question with this number is in the table, not answered. */
  ghost predicate Waiting(r: Run, number: nat)
  {
    exists id :: Holds(r, id, number)
  }

  ghost predicate Holds(r: Run, id: int, number: nat)
  {
    id in r.table && id in r.number && r.number[id] == number && r.table[id].created != 0
  }

  /** At a time when this question has not timed out, a step does not lose it, unless every id is taken. */
  ghost predicate Spares(r: Run, step: Step, number: nat)
    requires number < |r.asked|
  {
    step.Ask? ==> step.now <= r.asked[number].at + TIMEOUT && !Full(r.table, step.now)
  }

  lemma StepSpares(r: Run, step: Step, key: u16, number: nat)
    requires Inv(r) && Waiting(r, number) && number < |r.asked| && Spares(r, step, number)
    ensures
      var s := Take(r, step, key);
      number < |s.asked| && s.asked[number] == r.asked[number] && (Waiting(s, number) || Answered(s.answers, number))
  {
    hide PickId, Full, Answered, Matches, Slot;
    var id :| Holds(r, id, number);
    var s := Take(r, step, key);
    assert EntryOk(r.table[id], r.number[id], r.asked);
    match step {
      case Ask(q, now) =>
        DisplacesIff(r.table, id, now);
        assert Holds(s, id, number);
      case Reply(p) =>
        if Matches(r.table, p, key) {
          AnsweredMore(r.answers, s.answers[|r.answers|], number);
          if Slot(p, key) != id {
            assert Holds(s, id, number);
          }
        } else {
          assert Holds(s, id, number);
        }
    }
  }

  lemma StepKeepsAnswers(r: Run, step: Step, key: u16, number: nat)
    requires r.table.Keys == r.number.Keys && Answered(r.answers, number)
    ensures Answered(Take(r, step, key).answers, number)
  {
    hide Answered, Matches, PickId;
    var s := Take(r, step, key);
    if s.answers != r.answers {
      AnsweredMore(r.answers, s.answers[|r.answers|], number);
    }
  }

  function AfterFirst(steps: seq<Step>, m: nat, key: u16): (r: Run)
    requires m <= |steps|
    ensures Inv(r)
  {
    After(steps[..m], key)
  }

  lemma AfterNext(steps: seq<Step>, m: nat, key: u16)
    requires m < |steps|
    ensures AfterFirst(steps, m + 1, key) == Take(AfterFirst(steps, m, key), steps[m], key)
  {
    hide Take, Inv;
    assert steps[..m + 1][..m] == steps[..m];
  }

  /** Over every run with fewer than 65536 ids taken at any time: a question that waits is answered or
      still waits at any later time up to 60 seconds after it was asked. */
  lemma {:induction false} NeverDisplaced(steps: seq<Step>, m: nat, n: nat, key: u16, number: nat)
    requires m <= n <= |steps|
    requires Waiting(AfterFirst(steps, m, key), number) && number < |AfterFirst(steps, m, key).asked|
    requires forall i :: m <= i < n ==>
      (steps[i].Ask? ==> steps[i].now <= AfterFirst(steps, m, key).asked[number].at + TIMEOUT
                         && !Full(AfterFirst(steps, i, key).table, steps[i].now))
    ensures
      var r := AfterFirst(steps, n, key);
      && number < |r.asked| && r.asked[number] == AfterFirst(steps, m, key).asked[number]
      && (Waiting(r, number) || Answered(r.answers, number))
    decreases n
  {
    hide After, AfterFirst, Take, Waiting, Answered, Inv, Full;
    if m < n {
      NeverDisplaced(steps, m, n - 1, key, number);
      var r := AfterFirst(steps, n - 1, key);
      AfterNext(steps, n - 1, key);
      AskedGrows(r, steps[n - 1], key, number);
      if Answered(r.answers, number) {
        StepKeepsAnswers(r, steps[n - 1], key, number) by {
          InvKeys(r);
        }
      } else {
        StepSpares(r, steps[n - 1], key, number);
      }
    }
  }

  lemma InvKeys(r: Run)
    requires Inv(r)
    ensures r.table.Keys == r.number.Keys
  {
  }

  lemma AskedGrows(r: Run, step: Step, key: u16, number: nat)
    requires Inv(r) && number < |r.asked|
    ensures number < |Take(r, step, key).asked| && Take(r, step, key).asked[number] == r.asked[number]
  {
    hide PickId, Matches;
  }

  // ---- a full table ----

  /** Questions that come in within 60 seconds. */
  predicate Burst(steps: seq<Step>, start: int)
  {
    forall i :: 0 <= i < |steps| ==> steps[i].Ask? && start <= steps[i].now <= start + TIMEOUT
  }

  /** The first n questions have the ids 0 to n - 1, in order. */
  ghost predicate Filled(r: Run, steps: seq<Step>, n: nat)
    requires n <= |steps| && forall i :: 0 <= i < |steps| ==> steps[i].Ask?
  {
    && |r.asked| == n && r.answers == []
    && (forall id: int :: id in r.table <==> 0 <= id < n)
    && (forall id: int :: id in r.number <==> 0 <= id < n)
    && (forall id: int :: 0 <= id < n ==> r.number[id] == id && r.table[id].created == steps[id].now)
  }

  lemma FilledTaken(r: Run, steps: seq<Step>, start: int, n: nat, now: int, k: nat)
    requires n <= |steps| && n <= SLOTS && Burst(steps, start) && start <= now <= start + TIMEOUT && Filled(r, steps, n)
    ensures k < n ==> !Free(r.table, k, now)
    ensures n == k ==> Free(r.table, k, now)
  {
  }

  /** The next number is picked while there is one. */
  lemma FilledPick(r: Run, steps: seq<Step>, start: int, n: nat, now: int)
    requires n <= |steps| && n <= SLOTS && Burst(steps, start) && start <= now <= start + TIMEOUT && Filled(r, steps, n)
    ensures PickId(r.table, now) == n % SLOTS
  {
    hide Filled, Free, Burst;
    var k := FirstFree(r.table, 0, now);
    FilledTaken(r, steps, start, n, now, k);
    FilledTaken(r, steps, start, n, now, n);
  }

  lemma {:induction false} BurstFills(steps: seq<Step>, key: u16, start: int, n: nat)
    requires Burst(steps, start) && n <= |steps| && n <= SLOTS
    ensures Filled(AfterFirst(steps, n, key), steps, n)
  {
    hide AfterFirst, Take, PickId, Inv;
    if n == 0 {
      assert AfterFirst(steps, 0, key) == Run(map[], map[], [], []) by { NothingYet(steps, key); }
    } else {
      BurstFills(steps, key, start, n - 1);
      AfterNext(steps, n - 1, key);
      var r := AfterFirst(steps, n - 1, key);
      FilledPick(r, steps, start, n - 1, steps[n - 1].now);
      InvKeys(r);
      FilledNext(r, steps, key, n - 1);
    }
  }

  lemma NothingYet(steps: seq<Step>, key: u16)
    ensures AfterFirst(steps, 0, key) == Run(map[], map[], [], [])
  {
  }

  lemma FilledNext(r: Run, steps: seq<Step>, key: u16, n: nat)
    requires n < |steps| && n < SLOTS && (forall i :: 0 <= i < |steps| ==> steps[i].Ask?) && Filled(r, steps, n)
    requires PickId(r.table, steps[n].now) == n && r.table.Keys == r.number.Keys
    ensures Filled(Take(r, steps[n], key), steps, n + 1)
  {
    hide PickId;
  }

  /** Any 65537 questions that come in within 60 seconds, none of them answered yet: the last takes the place
      of the first, which waits no longer and has had no answer. */
  lemma FullTableDisplaces(steps: seq<Step>, key: u16, start: int)
    requires Burst(steps, start) && |steps| == SLOTS + 1 && start > 0
    ensures Waiting(AfterFirst(steps, SLOTS, key), 0)
    ensures var r := After(steps, key); !Waiting(r, 0) && !Answered(r.answers, 0)
  {
    hide AfterFirst, After, PickId, Inv;
    BurstFills(steps, key, start, SLOTS);
    var before := AfterFirst(steps, SLOTS, key);
    assert Holds(before, 0, 0);
    FilledPick(before, steps, start, SLOTS, steps[SLOTS].now);
    AfterNext(steps, SLOTS, key);
    AfterAll(steps, key);
    InvKeys(before);
    FullNext(before, steps, key);
  }

  lemma AfterAll(steps: seq<Step>, key: u16)
    ensures AfterFirst(steps, |steps|, key) == After(steps, key)
  {
    assert steps[..|steps|] == steps;
  }

  lemma FullNext(r: Run, steps: seq<Step>, key: u16)
    requires |steps| == SLOTS + 1 && (forall i :: 0 <= i < |steps| ==> steps[i].Ask?) && Filled(r, steps, SLOTS)
    requires PickId(r.table, steps[SLOTS].now) == 0 && r.table.Keys == r.number.Keys
    ensures var t := Take(r, steps[SLOTS], key); !Waiting(t, 0) && !Answered(t.answers, 0)
  {
    hide PickId;
  }

  // ---- the object ----

  class DNSProxy {
    var conntrack: Table
    const xor: u16

    constructor (key: u16)
      ensures conntrack == map[] && xor == key
    {
      conntrack, xor := map[], key;
    }

    method GetId(now: int) returns (id: nat)
      ensures id == FirstFree(conntrack, 0, now)
    {
      id := 0;
      while id < SLOTS && !Usable(conntrack, id, now)
        invariant id <= SLOTS && forall j: nat :: j < id ==> !Free(conntrack, j, now)
      {
        id := id + 1;
      }
      ghost var r := FirstFree(conntrack, 0, now);
      assert Free(conntrack, id, now);
      assert Free(conntrack, r, now);
    }

    /** sendPacket; allowed: recurseFor the client. */
    method SendPacket(q: Question, now: int, allowed: bool) returns (sent: Option<Packet>)
      modifies this`conntrack
      ensures sent == if allowed then Some(Outgoing(old(conntrack), q, now, xor)) else None
      ensures conntrack
           == if allowed then old(conntrack)[PickId(old(conntrack), now) := Tracked(q, now)] else old(conntrack)
    {
      if !allowed {
        return None;
      }
      var n := GetId(now);
      var id := n % SLOTS;
      conntrack := conntrack[id := Tracked(q, now)];
      return Some(Packet(Xor(id, xor), q.qname, q.qtype));
    }

    /** One packet from the recursor, of at least 12 bytes, as mainloop handles it. */
    method Receive(p: Packet) returns (forward: Option<Forward>)
      modifies this`conntrack
      ensures
        var id := Slot(p, xor);
        if Matches(old(conntrack), p, xor)
        then
          && forward == Some(Forwarded(old(conntrack)[id], p))
          && conntrack == old(conntrack)[id := old(conntrack)[id].(created := 0)]
        else forward == None && conntrack == old(conntrack)
    {
      var id := Xor(p.id, xor);
      if id !in conntrack {
        return None;
      }
      var e := conntrack[id];
      if e.created == 0 {
        return None;
      }
      if p.qtype != e.qtype || p.qname != e.qname {
        return None;
      }
      conntrack := conntrack[id := e.(created := 0)];
      return Some(Forward(e.id, e.remote, p.qname, p.qtype));
    }
  }
}
