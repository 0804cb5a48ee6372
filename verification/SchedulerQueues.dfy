/** Where a thread goes when it gives up control, and when it gets control again. */
module SchedulerQueues {
  import opened Bytes
  import opened MTasker
  import opened SchedulerInvariant
  import opened SchedulerTimeouts

  // ---- one turn of a thread ----

  /** yield gives up control, and waitEvent does unless somebody waits for the key already. */
  predicate Suspends(ws: seq<Waiter>, call: Call)
  {
    call.Yield? || (call.Wait? && forall w :: w in ws ==> w.key != call.key)
  }

  /** The thread uses its first n calls and then gives up control, or has used all calls. */
  predicate Turn(ws: seq<Waiter>, calls: seq<Call>, n: nat)
  {
    && n <= |calls| && (forall i :: 0 <= i < n ==> !Suspends(ws, calls[i]))
    && (n < |calls| ==> Suspends(ws, calls[n]))
  }

  /** How many threads the first n calls make. */
  function Makes(calls: seq<Call>, n: nat): (m: nat)
    requires n <= |calls|
  {
    if n == 0 then 0 else Makes(calls, n - 1) + if calls[n - 1].Make? then 1 else 0
  }

  /** The numbers of new threads. */
  function Fresh(from: nat, m: nat): (tids: seq<nat>)
    ensures |tids| == m && forall i :: 0 <= i < m ==> tids[i] == from + i
  {
    seq(m, i => from + i)
  }

  /** What a turn of thread t, from its first call to its n-th, makes of the kernel's queues. The threads it
      made are runnable. If it yields it stands behind them; if it waits there is a waiter with its number, the
      key and the deadline; if it has used all its calls it is a zombie. */
  ghost predicate Turned(s: State, r: State, t: nat, calls: seq<Call>, n: nat)
    requires n <= |calls|
  {
    var m := Makes(calls, n);
    var yielded, ended := n < |calls| && calls[n].Yield?, n == |calls|;
    && r.runQueue == s.runQueue + Fresh(s.maxtid, m) + (if yielded then [t] else [])
    && r.zombies == s.zombies + (if ended then [t] else [])
    && r.maxtid == s.maxtid + m && (forall u: nat :: u in r.threads <==> u in s.threads || s.maxtid <= u < s.maxtid + m)
    && (if yielded || ended then r.waiters == s.waiters
        else
          && calls[n].Wait?
          && var w := Waiter(calls[n].key, Deadline(calls[n].timeoutMsec, calls[n].now), t);
          multiset(r.waiters) == multiset(s.waiters) + multiset{w})
  }

  lemma FindIff(ws: seq<Waiter>, key: int)
    ensures Find(ws, key) < |ws| <==> exists w :: w in ws && w.key == key
  {
    var i := Find(ws, key);
    if i < |ws| {
      assert ws[i] in ws;
    }
  }

  lemma InsertMultiset(ws: seq<Waiter>, w: Waiter)
    ensures multiset(Insert(ws, w)) == multiset(ws) + multiset{w}
  {
    hide Place;
    var p := Place(ws, w.ttd, 0);
    assert ws == ws[..p] + ws[p..];
  }

  /** The state after the first k calls of a turn. */
  function Midway(s: State, calls: seq<Call>, k: nat): (r: State)
    requires k <= |calls|
  {
    if k == 0 then s else
      var r := Midway(s, calls, k - 1);
      if calls[k - 1].Make? then MakeThread(r) else r
  }

  lemma {:induction false} MidwayIs(s: State, calls: seq<Call>, k: nat)
    requires k <= |calls|
    ensures var r, m := Midway(s, calls, k), Makes(calls, k);
            && r.runQueue == s.runQueue + Fresh(s.maxtid, m) && r.zombies == s.zombies && r.waiters == s.waiters
            && r.tid == s.tid && r.maxtid == s.maxtid + m
            && (forall u: nat :: u in r.threads <==> u in s.threads || s.maxtid <= u < s.maxtid + m)
  {
    if k > 0 {
      MidwayIs(s, calls, k - 1);
    }
  }

  lemma {:induction false} RunMidway(s: State, calls: seq<Call>, n: nat, k: nat)
    requires Turn(s.waiters, calls, n) && k <= n
    ensures RunThread(s, calls, 0) == RunThread(Midway(s, calls, k), calls, k)
  {
    if k > 0 {
      RunMidway(s, calls, n, k - 1);
      MidwayIs(s, calls, k - 1);
      var call := calls[k - 1];
      assert !Suspends(s.waiters, call);
      if call.Wait? {
        FindIff(s.waiters, call.key);
      }
    }
  }

  /** A turn, whatever the calls: exactly one number of calls fits, and the queues are then as Turned says. */
  lemma RunExact(s: State, calls: seq<Call>) returns (n: nat)
    ensures Turn(s.waiters, calls, n) && Turned(s, RunThread(s, calls, 0), s.tid, calls, n)
    ensures forall k: nat :: Turn(s.waiters, calls, k) ==> k == n
  {
    n := TurnLength(s.waiters, calls);
    RunMidway(s, calls, n, n);
    MidwayIs(s, calls, n);
    var mid := Midway(s, calls, n);
    if n < |calls| && calls[n].Wait? {
      var w := Waiter(calls[n].key, Deadline(calls[n].timeoutMsec, calls[n].now), s.tid);
      FindIff(s.waiters, w.key);
      InsertMultiset(s.waiters, w);
    }
  }

  lemma TurnLength(ws: seq<Waiter>, calls: seq<Call>) returns (n: nat)
    ensures Turn(ws, calls, n) && forall k: nat :: Turn(ws, calls, k) ==> k == n
  {
    n := 0;
    while n < |calls| && !Suspends(ws, calls[n])
      invariant n <= |calls| && forall i :: 0 <= i < n ==> !Suspends(ws, calls[i])
    {
      n := n + 1;
    }
  }

  // ---- schedule and sendEvent ----

  /** With a runnable thread, schedule gives the first one a turn and takes it off the queue. */
  lemma ScheduleRuns(s: State, now: Time, scripts: seq<seq<Call>>) returns (n: nat)
    requires s.runQueue != []
    ensures var calls, r := (if scripts == [] then [] else scripts[0]), Schedule(s, now, scripts);
            && Turn(s.waiters, calls, n) && r.more && r.wakes == [] && !r.hangs
            && Turned(s.(runQueue := s.runQueue[1..]), r.state, s.runQueue[0], calls, n)
  {
    var calls := First(scripts);
    var s0 := s.(tid := s.runQueue[0]);
    n := RunExact(s0, calls);
    RunKeepsFront(s0, calls, 0);
    hide RunThread;
    var r := RunThread(s0, calls, 0);
    var yielded := n < |calls| && calls[n].Yield?;
    FrontOff(s.runQueue, Fresh(s.maxtid, Makes(calls, n)), if yielded then [s.runQueue[0]] else []);
  }

  lemma FrontOff(a: seq<nat>, b: seq<nat>, c: seq<nat>)
    requires a != []
    ensures (a + b + c)[1..] == a[1..] + b + c
  {
  }

  /** A waiter that is resumed has a turn, and waits no longer. */
  lemma ResumeTurns(s: State, i: nat, status: WaitStatus, val: int, calls: seq<Call>) returns (n: nat)
    requires i < |s.waiters|
    ensures var others := s.waiters[..i] + s.waiters[i + 1..];
            && Turn(others, calls, n)
            && Turned(s.(waiters := others), Resume(s, i, status, val, calls), s.waiters[i].tid, calls, n)
  {
    var w := s.waiters[i];
    n := RunExact(s.(waiters := Remove(s.waiters, i), tid := w.tid, waitstatus := status, waitval := val,
                     eventkey := w.key), calls);
    hide RunThread;
  }

  /** sendEvent gives a turn to the thread that waits for the key. */
  lemma SendEventTurns(s: State, key: int, val: Option<int>, calls: seq<Call>, i: nat) returns (n: nat)
    requires Inv(s) && i < |s.waiters| && s.waiters[i].key == key
    ensures var others := s.waiters[..i] + s.waiters[i + 1..];
            && Turn(others, calls, n)
            && Turned(s.(waiters := others), SendEvent(s, key, val, calls).0, s.waiters[i].tid, calls, n)
  {
    FindUnique(s.waiters, i);
    n := ResumeTurns(s, i, Answer, if val.Some? then val.value else s.waitval, calls);
    hide Resume;
  }

  /** Without a runnable thread, schedule takes the first zombie out of the thread table. */
  lemma ScheduleReaps(s: State, now: Time, scripts: seq<seq<Call>>)
    requires s.runQueue == [] && s.zombies != []
    ensures var r := Schedule(s, now, scripts);
            && r.more && r.wakes == [] && !r.hangs && r.state.runQueue == [] && r.state.waiters == s.waiters
            && r.state.threads == s.threads - {s.zombies[0]} && r.state.zombies == s.zombies[1..]
  {
  }

  /** The first waiter, w, has had a turn. */
  ghost predicate FirstTurned(s: State, w: Waiter, r: State, calls: seq<Call>)
  {
    && s.waiters != [] && s.waiters[0] == w
    && exists n :: Turn(s.waiters[1..], calls, n)
                   && Turned(s.(waiters := s.waiters[1..]), r, s.waiters[0].tid, calls, n)
  }

  function Script(scripts: seq<seq<Call>>, j: nat): (calls: seq<Call>)
  {
    if j < |scripts| then scripts[j] else []
  }

  /** The timeout scan gives each expired waiter a turn, one after the other: states are those between. */
  lemma {:induction false} ScanTurns(s: State, k: nat, cursor: Cursor, now: Time, scripts: seq<seq<Call>>)
    returns (states: seq<State>)
    requires Inv(s) && Split(s.waiters, k, now)
    requires k > 0 ==> cursor == Some(s.waiters[0].key)
    requires forall i :: 0 <= i < |scripts| ==> Tame(scripts[i], now)
    ensures |states| == k + 1 && states[0] == s && states[k] == Scan(s, cursor, now, scripts).state && k <= |s.waiters|
    ensures forall j :: 0 <= j < k ==>
      FirstTurned(states[j], s.waiters[j], states[j + 1], Script(scripts, j))
    decreases |scripts|, |s.waiters|
  {
    hide Inv, Split, Resume, Find, Scan, Tame, Turned, FirstTurned, CursorAt;
    SplitLength(s.waiters, k, now);
    if k == 0 {
      ScanStops(s, cursor, now, scripts);
      return [s];
    }
    ScanFound(s, k, now);
    var calls := First(scripts);
    var s' := Resume(s, 0, TimeOut, s.waitval, calls);
    FirstTame(scripts, now);
    ResumeFirst(s, k, calls, now);
    ScanStep(s, cursor, now, scripts, 0);
    CursorNext(s, s', k);
    var rest := ScanTurns(s', k - 1, CursorAt(s.waiters, 1), now, Rest(scripts));
    states := [s] + rest;
    FirstResumes(s, calls);
    forall j | 0 <= j < k
      ensures FirstTurned(states[j], s.waiters[j], states[j + 1], Script(scripts, j))
    {
      if j > 0 {
        assert states[j] == rest[j - 1] && states[j + 1] == rest[j];
        assert Script(scripts, j) == Script(Rest(scripts), j - 1);
        assert s'.waiters[..k - 1][j - 1] == s.waiters[1..k][j - 1];
      }
    }
  }

  lemma CursorNext(s: State, r: State, k: nat)
    requires 0 < k <= |s.waiters| && k - 1 <= |r.waiters| && r.waiters[..k - 1] == s.waiters[1..k]
    ensures k - 1 > 0 ==> CursorAt(s.waiters, 1) == Some(r.waiters[0].key)
  {
    if k > 1 {
      assert r.waiters[0] == r.waiters[..k - 1][0] == s.waiters[1..k][0];
    }
  }

  lemma FirstResumes(s: State, calls: seq<Call>)
    requires s.waiters != []
    ensures FirstTurned(s, s.waiters[0], Resume(s, 0, TimeOut, s.waitval, calls), calls)
  {
    hide Resume;
    var n := ResumeTurns(s, 0, TimeOut, s.waitval, calls);
    assert s.waiters[..0] + s.waiters[1..] == s.waiters[1..];
  }

  /** With deadlines on all waiters, schedule on idle queues gives a turn to exactly the expired waiters, in the
      order of their deadlines. */
  lemma ScheduleScans(s: State, now: Time, scripts: seq<seq<Call>>) returns (states: seq<State>)
    requires Inv(s) && s.runQueue == [] && s.zombies == []
    requires forall w :: w in s.waiters ==> w.ttd.sec > 0
    requires forall i :: 0 <= i < |scripts| ==> Tame(scripts[i], now)
    ensures var k := |states| - 1;
            && 0 <= k <= |s.waiters|
            && (forall i :: 0 <= i < |s.waiters| ==> (Before(s.waiters[i].ttd, now) <==> i < k))
            && states[0] == s && states[k] == Schedule(s, now, scripts).state
            && forall j :: 0 <= j < k ==>
                 FirstTurned(states[j], s.waiters[j], states[j + 1], Script(scripts, j))
  {
    hide Scan, Due, Tame, FirstTurned;
    DueSplits(s.waiters, now);
    var k := SchedulerTimeouts.Due(s.waiters, now);
    states := ScanTurns(s, k, CursorAt(s.waiters, 0), now, scripts);
  }

  // ---- first in, first out ----

  /** How often schedule is called. */
  function Steps(ops: seq<Op>): (n: nat)
  {
    if ops == [] then 0 else (if ops[0].Step? then 1 else 0) + Steps(ops[1..])
  }

  function RunFrom(s: State, ops: seq<Op>): (r: State)
    decreases |ops|
  {
    if ops == [] then s else RunFrom(Do(s, ops[0]), ops[1..])
  }

  /** What a single kernel call does to the run queue: makeThread and sendEvent put threads behind it, schedule
      takes the first one off and may put threads behind it. */
  lemma DoQueue(s: State, op: Op)
    ensures op.Launch? ==> Do(s, op).runQueue == s.runQueue + [s.maxtid] && Do(s, op).threads == s.threads + {s.maxtid}
    ensures !op.Step? ==> s.runQueue <= Do(s, op).runQueue
    ensures op.Step? && s.runQueue != [] ==> s.runQueue[1..] <= Do(s, op).runQueue
  {
    match op
    case Launch =>
    case Event(key, val, calls) =>
      var i := Find(s.waiters, key);
      if i < |s.waiters| {
        var n := ResumeTurns(s, i, Answer, if val.Some? then val.value else s.waitval, calls);
      }
      hide Resume;
    case Step(now, scripts) =>
      if s.runQueue != [] {
        var n := ScheduleRuns(s, now, scripts);
      }
      hide Schedule;
  }

  /** A runnable thread gets control after as many calls of schedule as there are threads before it, whatever
      else the kernel does in between: then it is first in the run queue, and the next call of schedule gives
      it its turn (ScheduleRuns). */
  lemma {:induction false} FirstInFirstOut(s: State, ops: seq<Op>, i: nat)
    requires i < |s.runQueue| && Steps(ops) <= i
    ensures var r := RunFrom(s, ops);
            i - Steps(ops) < |r.runQueue| && r.runQueue[i - Steps(ops)] == s.runQueue[i]
    decreases |ops|
  {
    hide Do;
    if ops != [] {
      DoQueue(s, ops[0]);
      var r := Do(s, ops[0]);
      FirstInFirstOut(r, ops[1..], if ops[0].Step? then i - 1 else i);
    }
  }

  /** A thread leaves the thread table only when schedule reaps it, and then it was the first zombie. */
  lemma ReapedZombie(s: State, op: Op, t: nat)
    requires t in s.threads && t !in Do(s, op).threads
    ensures op.Step? && s.runQueue == [] && s.zombies != [] && s.zombies[0] == t
  {
    match op
    case Launch =>
    case Event(key, val, calls) =>
      var i := Find(s.waiters, key);
      if i < |s.waiters| {
        var n := ResumeTurns(s, i, Answer, if val.Some? then val.value else s.waitval, calls);
      }
      hide Resume;
    case Step(now, scripts) =>
      if s.runQueue != [] {
        var n := ScheduleRuns(s, now, scripts);
        hide Schedule;
      } else if s.zombies == [] {
        ScanThreads(s, CursorAt(s.waiters, 0), now, scripts, t);
      }
  }

  lemma {:induction false} ScanThreads(s: State, cursor: Cursor, now: Time, scripts: seq<seq<Call>>, t: nat)
    requires t in s.threads
    ensures t in Scan(s, cursor, now, scripts).state.threads
    decreases |scripts|, |s.waiters|
  {
    hide Resume, Find, Scan, CursorAt;
    ScanEnd(s, cursor, now, scripts);
    if cursor.Some? && Find(s.waiters, cursor.value) < |s.waiters| {
      var i := Find(s.waiters, cursor.value);
      if s.waiters[i].ttd.sec != 0 && Before(s.waiters[i].ttd, now) {
        var n := ResumeTurns(s, i, TimeOut, s.waitval, First(scripts));
        ScanStep(s, cursor, now, scripts, i);
        ScanThreads(Resume(s, i, TimeOut, s.waitval, First(scripts)), CursorAt(s.waiters, i + 1), now, Rest(scripts),
                    t);
      }
    }
  }
}
