/** What every run of the scheduler keeps: each live thread in exactly one place; and what sendEvent
    resumes. */
module SchedulerInvariant {
  import opened Bytes
  import opened MTasker

  // ---- the invariant: every live thread in exactly one place ----

  function Tids(ws: seq<Waiter>): (m: multiset<nat>)
    decreases |ws|
  {
    if ws == [] then multiset{} else multiset{ws[0].tid} + Tids(ws[1..])
  }

  lemma {:induction false} TidsAround(a: seq<Waiter>, w: Waiter, b: seq<Waiter>)
    ensures Tids(a + [w] + b) == Tids(a + b) + multiset{w.tid}
    decreases |a|
  {
    if a == [] {
      assert a + [w] + b == [w] + b && ([w] + b)[1..] == b && a + b == b;
    } else {
      TidsAround(a[1..], w, b);
      assert (a + [w] + b)[1..] == a[1..] + [w] + b;
      assert (a + b)[1..] == a[1..] + b;
    }
  }

  lemma InsertTids(ws: seq<Waiter>, w: Waiter)
    ensures Tids(Insert(ws, w)) == Tids(ws) + multiset{w.tid}
  {
    hide Tids;
    var p := Place(ws, w.ttd, 0);
    TidsAround(ws[..p], w, ws[p..]);
    assert ws[..p] + ws[p..] == ws;
  }

  lemma Rejoin(ws: seq<Waiter>, i: nat)
    requires i < |ws|
    ensures ws[..i] + [ws[i]] + ws[i + 1..] == ws
  {
  }

  lemma RemoveIs(ws: seq<Waiter>, i: nat)
    requires i < |ws|
    ensures Remove(ws, i) == ws[..i] + ws[i + 1..]
  {
  }

  lemma RemoveTids(ws: seq<Waiter>, i: nat)
    requires i < |ws|
    ensures Tids(ws) == Tids(Remove(ws, i)) + multiset{ws[i].tid}
  {
    hide *;
    TidsAround(ws[..i], ws[i], ws[i + 1..]);
    Rejoin(ws, i);
    RemoveIs(ws, i);
  }

  /** Every place where a thread is held, counted. */
  function Held(s: State): (m: multiset<nat>)
  {
    multiset(s.runQueue) + multiset(s.zombies) + Tids(s.waiters)
  }

  ghost predicate KeysUnique(ws: seq<Waiter>)
  {
    forall i, j :: 0 <= i < j < |ws| ==> ws[i].key != ws[j].key
  }

  /** The deadline index is in order. */
  ghost predicate Ordered(ws: seq<Waiter>)
  {
    forall i, j :: 0 <= i < j < |ws| ==> !Before(ws[j].ttd, ws[i].ttd)
  }

  /** What holds while a thread runs: apart from `extra`, all threads but the running one are held once. */
  ghost predicate Busy(s: State, extra: multiset<nat>)
  {
    && Held(s) + multiset{s.tid} == multiset(s.threads) + extra
    && (forall t :: t in s.threads ==> t < s.maxtid)
    && KeysUnique(s.waiters) && Ordered(s.waiters)
  }

  /** What holds whenever the kernel has control. */
  ghost predicate Inv(s: State)
  {
    && Held(s) == multiset(s.threads)
    && (forall t :: t in s.threads ==> t < s.maxtid)
    && KeysUnique(s.waiters) && Ordered(s.waiters)
  }

  /** The invariant read thread by thread. */
  lemma EachThreadOnce(s: State, t: nat)
    requires Inv(s)
    ensures multiset(s.runQueue)[t] + multiset(s.zombies)[t] + Tids(s.waiters)[t] == if t in s.threads then 1 else 0
  {
    assert Held(s)[t] == multiset(s.threads)[t];
  }

  lemma InsertAt(ws: seq<Waiter>, w: Waiter, k: nat)
    ensures |Insert(ws, w)| == |ws| + 1
    ensures k <= |ws| ==>
      Insert(ws, w)[k] == (var p := Place(ws, w.ttd, 0); if k < p then ws[k] else if k == p then w else ws[k - 1])
  {
    hide Place;
  }

  lemma InsertOrdered(ws: seq<Waiter>, w: Waiter)
    requires Ordered(ws) && KeysUnique(ws) && Find(ws, w.key) == |ws|
    ensures Ordered(Insert(ws, w)) && KeysUnique(Insert(ws, w))
  {
    hide Insert, Place, Find;
    var p := Place(ws, w.ttd, 0);
    var r := Insert(ws, w);
    InsertAt(ws, w, 0);
    forall i, j | 0 <= i < j < |r|
      ensures r[i].key != r[j].key && !Before(r[j].ttd, r[i].ttd)
    {
      InsertAt(ws, w, i);
      InsertAt(ws, w, j);
      assert i == p && j - 1 > p ==> !Before(ws[j - 1].ttd, ws[p].ttd);
    }
  }

  lemma RemoveOrdered(ws: seq<Waiter>, i: nat)
    requires i < |ws| && Ordered(ws) && KeysUnique(ws)
    ensures Ordered(Remove(ws, i)) && KeysUnique(Remove(ws, i))
  {
    var r := Remove(ws, i);
    assert forall k :: 0 <= k < |r| ==> r[k] == if k < i then ws[k] else ws[k + 1];
  }

  lemma Cancel(a: multiset<nat>, b: multiset<nat>, c: multiset<nat>)
    requires a + c == b + c
    ensures a == b
  {
    forall x ensures a[x] == b[x] {
      assert (a + c)[x] == (b + c)[x];
    }
  }

  lemma AddOne(a: multiset<nat>, b: multiset<nat>, c: multiset<nat>, d: multiset<nat>, e: multiset<nat>)
    requires a + b == c + d
    ensures (a + e) + b == (c + e) + d
  {
    assert (a + e) + b == (a + b) + e;
    assert (c + e) + d == (c + d) + e;
  }

  lemma MakeAccounts(s: State, extra: multiset<nat>)
    requires Busy(s, extra)
    ensures Busy(MakeThread(s), extra)
  {
    hide Tids;
    assert multiset(s.threads + {s.maxtid}) == multiset(s.threads) + multiset{s.maxtid};
    assert multiset(s.runQueue + [s.maxtid]) == multiset(s.runQueue) + multiset{s.maxtid};
    assert Held(MakeThread(s)) == Held(s) + multiset{s.maxtid};
    AddOne(Held(s), multiset{s.tid}, multiset(s.threads), extra, multiset{s.maxtid});
  }

  lemma WaitAccounts(s: State, w: Waiter, extra: multiset<nat>)
    requires Busy(s, extra) && Find(s.waiters, w.key) == |s.waiters| && w.tid == s.tid
    ensures
      var r := s.(waiters := Insert(s.waiters, w));
      && Held(r) == multiset(r.threads) + extra
      && KeysUnique(r.waiters) && Ordered(r.waiters)
  {
    InsertTids(s.waiters, w);
    InsertOrdered(s.waiters, w);
    hide Insert, Tids, Find;
  }

  /** After its run the thread is held again, in addition to the threads it made. */
  lemma {:induction false} RunAccounts(s: State, calls: seq<Call>, n: nat, extra: multiset<nat>)
    requires n <= |calls| && Busy(s, extra)
    ensures
      var r := RunThread(s, calls, n);
      && Held(r) == multiset(r.threads) + extra
      && (forall t :: t in r.threads ==> t < r.maxtid)
      && KeysUnique(r.waiters) && Ordered(r.waiters)
    decreases |calls| - n
  {
    if n < |calls| {
      match calls[n] {
        case Make =>
          MakeAccounts(s, extra);
          RunAccounts(MakeThread(s), calls, n + 1, extra);
        case Yield =>
        case Wait(key, timeoutMsec, now) =>
          if Find(s.waiters, key) < |s.waiters| {
            RunAccounts(s, calls, n + 1, extra);
          } else {
            WaitAccounts(s, Waiter(key, Deadline(timeoutMsec, now), s.tid), extra);
          }
      }
    }
  }

  lemma ResumeKeeps(s: State, i: nat, status: WaitStatus, val: int, calls: seq<Call>)
    requires Inv(s) && i < |s.waiters|
    ensures Inv(Resume(s, i, status, val, calls))
  {
    var w := s.waiters[i];
    RemoveTids(s.waiters, i);
    RemoveOrdered(s.waiters, i);
    RunAccounts(s.(waiters := Remove(s.waiters, i), tid := w.tid, waitstatus := status, waitval := val,
                   eventkey := w.key), calls, 0, multiset{});
  }

  lemma {:induction false} ScanKeeps(s: State, cursor: Cursor, now: Time, scripts: seq<seq<Call>>)
    requires Inv(s)
    ensures Inv(Scan(s, cursor, now, scripts).state)
    decreases |scripts|, |s.waiters|
  {
    hide Inv, Resume, Find, Scan, CursorAt;
    ScanEnd(s, cursor, now, scripts);
    if cursor.Some? && Find(s.waiters, cursor.value) < |s.waiters| {
      var i := Find(s.waiters, cursor.value);
      if s.waiters[i].ttd.sec != 0 && Before(s.waiters[i].ttd, now) {
        ResumeKeeps(s, i, TimeOut, s.waitval, First(scripts));
        ScanStep(s, cursor, now, scripts, i);
        ScanKeeps(Resume(s, i, TimeOut, s.waitval, First(scripts)), CursorAt(s.waiters, i + 1), now, Rest(scripts));
      }
    }
  }

  lemma FrontTids(s: State, t: nat)
    requires s.runQueue != [] && s.runQueue[0] == t && Held(s) == multiset(s.threads) + multiset{t}
    ensures Held(s.(runQueue := s.runQueue[1..])) == multiset(s.threads)
  {
    hide Tids;
    assert s.runQueue == [t] + s.runQueue[1..];
    assert multiset(s.runQueue) == multiset{t} + multiset(s.runQueue[1..]);
    assert Held(s) == Held(s.(runQueue := s.runQueue[1..])) + multiset{t};
    Cancel(Held(s.(runQueue := s.runQueue[1..])), multiset(s.threads), multiset{t});
  }

  lemma ReapKeeps(s: State)
    requires Inv(s) && s.zombies != []
    ensures Inv(s.(threads := s.threads - {s.zombies[0]}, zombies := s.zombies[1..]))
  {
    hide Tids;
    var z := s.zombies[0];
    assert s.zombies == [z] + s.zombies[1..];
    assert multiset(s.zombies) == multiset{z} + multiset(s.zombies[1..]);
    assert Held(s) == Held(s.(zombies := s.zombies[1..])) + multiset{z};
    assert Held(s)[z] == multiset(s.threads)[z];
    assert multiset(s.threads) == multiset(s.threads - {z}) + multiset{z};
    Cancel(Held(s.(zombies := s.zombies[1..])), multiset(s.threads - {z}), multiset{z});
  }

  lemma ScheduleKeeps(s: State, now: Time, scripts: seq<seq<Call>>)
    requires Inv(s)
    ensures Inv(Schedule(s, now, scripts).state)
  {
    if s.runQueue != [] {
      var t := s.runQueue[0];
      var s0 := s.(tid := t);
      var calls := First(scripts);
      RunAccounts(s0, calls, 0, multiset{t});
      RunKeepsFront(s0, calls, 0);
      FrontTids(RunThread(s0, calls, 0), t);
    } else if s.zombies != [] {
      ReapKeeps(s);
    } else {
      ScanKeeps(s, CursorAt(s.waiters, 0), now, scripts);
    }
  }

  // ---- whole runs ----

  /** What the kernel does: makeThread, sendEvent, schedule. */
  datatype Op = Launch | Event(key: int, val: Option<int>, calls: seq<Call>) | Step(now: Time, scripts: seq<seq<Call>>)

  function Do(s: State, op: Op): (r: State)
  {
    match op
    case Launch => MakeThread(s)
    case Event(key, val, calls) => SendEvent(s, key, val, calls).0
    case Step(now, scripts) => Schedule(s, now, scripts).state
  }

  function Run(ops: seq<Op>): (s: State)
    decreases |ops|
  {
    if ops == [] then Start() else Do(Run(ops[..|ops| - 1]), ops[|ops| - 1])
  }

  lemma SendKeeps(s: State, key: int, val: Option<int>, calls: seq<Call>)
    requires Inv(s)
    ensures Inv(SendEvent(s, key, val, calls).0)
  {
    var i := Find(s.waiters, key);
    if i < |s.waiters| {
      ResumeKeeps(s, i, Answer, if val.Some? then val.value else s.waitval, calls);
    }
  }

  lemma MakeKeeps(s: State)
    requires Inv(s)
    ensures Inv(MakeThread(s))
  {
    hide Tids;
    assert multiset(s.threads + {s.maxtid}) == multiset(s.threads) + multiset{s.maxtid};
    assert multiset(s.runQueue + [s.maxtid]) == multiset(s.runQueue) + multiset{s.maxtid};
    assert Held(MakeThread(s)) == Held(s) + multiset{s.maxtid};
  }

  /** After any sequence of kernel calls, whatever the threads do, every live thread is in exactly one
      of run queue, zombies and waiters, exactly once, and no two waiters share a key. */
  lemma {:induction false} EveryRunKeeps(ops: seq<Op>)
    ensures Inv(Run(ops))
    decreases |ops|
  {
    if ops != [] {
      var before := Run(ops[..|ops| - 1]);
      EveryRunKeeps(ops[..|ops| - 1]);
      match ops[|ops| - 1] {
        case Launch => MakeKeeps(before);
        case Event(key, val, calls) => SendKeeps(before, key, val, calls);
        case Step(now, scripts) => ScheduleKeeps(before, now, scripts);
      }
    }
  }

  // ---- sendEvent ----

  /** Waiting threads stay waiting while another thread runs. */
  lemma {:induction false} RunKeepsWaiters(s: State, calls: seq<Call>, n: nat, w: Waiter)
    requires n <= |calls| && w in s.waiters
    ensures w in RunThread(s, calls, n).waiters
    decreases |calls| - n
  {
    if n < |calls| {
      match calls[n] {
        case Make => RunKeepsWaiters(MakeThread(s), calls, n + 1, w);
        case Yield =>
        case Wait(key, timeoutMsec, now) =>
          if Find(s.waiters, key) < |s.waiters| {
            RunKeepsWaiters(s, calls, n + 1, w);
          } else {
            InsertKeeps(s.waiters, Waiter(key, Deadline(timeoutMsec, now), s.tid), w);
          }
      }
    }
  }

  lemma InsertKeeps(ws: seq<Waiter>, added: Waiter, w: Waiter)
    requires w in ws
    ensures w in Insert(ws, added)
  {
    hide Place;
    var p := Place(ws, added.ttd, 0);
    assert ws == ws[..p] + ws[p..];
  }

  lemma RemoveKeeps(ws: seq<Waiter>, i: nat, w: Waiter)
    requires i < |ws| && w in ws && w != ws[i]
    ensures w in Remove(ws, i)
  {
    Rejoin(ws, i);
  }

  lemma FindUnique(ws: seq<Waiter>, i: nat)
    requires i < |ws| && KeysUnique(ws)
    ensures Find(ws, ws[i].key) == i
  {
    hide Find;
    var f := Find(ws, ws[i].key);
  }

  /** sendEvent resumes the thread that waits on the key, with that key and the value sent, and no
      other waiting thread; without such a thread it changes nothing. */
  lemma SendEventExact(s: State, key: int, val: Option<int>, calls: seq<Call>)
    requires Inv(s)
    ensures
      var (r, wake) := SendEvent(s, key, val, calls);
      && (forall w :: w in s.waiters && w.key == key ==>
            && wake.Some? && wake.value.tid == w.tid && wake.value.status == Answer && wake.value.key == key
            && (val.Some? ==> wake.value.val == val.value))
      && ((forall w :: w in s.waiters ==> w.key != key) ==> wake.None? && r == s)
      && (forall w :: w in s.waiters && w.key != key ==> w in r.waiters)
      && (wake.Some? && calls == [] ==> r.zombies == s.zombies + [wake.value.tid])
  {
    var i := Find(s.waiters, key);
    forall w | w in s.waiters && w.key == key
      ensures i < |s.waiters| && s.waiters[i] == w
    {
      var j :| 0 <= j < |s.waiters| && s.waiters[j] == w;
      FindUnique(s.waiters, j);
    }
    if i < |s.waiters| {
      var v := if val.Some? then val.value else s.waitval;
      forall w | w in s.waiters && w.key != key
        ensures w in Resume(s, i, Answer, v, calls).waiters
      {
        ResumeLeaves(s, i, Answer, v, calls, w);
      }
    }
  }

  lemma ResumeLeaves(s: State, i: nat, status: WaitStatus, val: int, calls: seq<Call>, w: Waiter)
    requires i < |s.waiters| && w in s.waiters && w != s.waiters[i]
    ensures w in Resume(s, i, status, val, calls).waiters
  {
    RemoveKeeps(s.waiters, i, w);
    RunKeepsWaiters(s.(waiters := Remove(s.waiters, i), tid := s.waiters[i].tid, waitstatus := status, waitval := val,
                       eventkey := s.waiters[i].key), calls, 0, w);
  }
}
