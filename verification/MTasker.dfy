/** The cooperative scheduler MTasker as a transition system. What a thread does while it has control
    is given from outside as a list of calls; control returns to the kernel at the first call that
    suspends it, or when its function returns. */
module MTasker {
  import opened Bytes

  /** struct timeval, compared lexicographically. */
  datatype Time = Time(sec: int, usec: int)

  predicate Before(a: Time, b: Time)
  {
    a.sec < b.sec || (a.sec == b.sec && a.usec < b.usec)
  }

  datatype Waiter = Waiter(key: int, ttd: Time, tid: nat)

  datatype WaitStatus = Error | TimeOut | Answer

  /** Calls a running thread makes: makeThread, waitEvent with a timeout and the time it passes or
      reads from the clock, yield. */
  datatype Call = Make | Wait(key: int, timeoutMsec: u32, now: Time) | Yield

  /** The sum of two times; normalizeTV carries only above a million microseconds. */
  function Deadline(timeoutMsec: u32, now: Time): (t: Time)
  {
    if timeoutMsec == 0 then Time(0, 0)
    else
      var usec := now.usec + 1000 * (timeoutMsec % 1000);
      if usec > 1000000 then Time(now.sec + timeoutMsec / 1000 + 1, usec - 1000000)
      else Time(now.sec + timeoutMsec / 1000, usec)
  }

  predicate Reading(t: Time)
  {
    0 < t.sec && 0 <= t.usec < 1000000
  }

  /** A timeout set no earlier than a given time has not expired by that time. */
  lemma DeadlineAhead(timeoutMsec: u32, now: Time, limit: Time)
    requires Reading(now) && 0 < timeoutMsec && !Before(now, limit)
    ensures !Before(Deadline(timeoutMsec, now), limit) && Deadline(timeoutMsec, now).sec > 0
  {
  }

  /** threads are the keys of d_threads; waiters are listed in the order of the deadline index. */
  datatype State = State(runQueue: seq<nat>, zombies: seq<nat>, threads: set<nat>, waiters: seq<Waiter>,
                         tid: nat, maxtid: nat, waitstatus: WaitStatus, waitval: int, eventkey: int)

  /** The position of the waiter for a key; |ws| if there is none. */
  function Find(ws: seq<Waiter>, key: int): (i: nat)
    ensures i <= |ws| && (i < |ws| ==> ws[i].key == key)
    ensures forall j :: 0 <= j < i ==> ws[j].key != key
    decreases |ws|
  {
    if ws == [] || ws[0].key == key then 0 else 1 + Find(ws[1..], key)
  }

  /** Where a new waiter goes: behind those with the same or an earlier deadline. */
  function Place(ws: seq<Waiter>, ttd: Time, i: nat): (p: nat)
    requires i <= |ws|
    ensures i <= p <= |ws|
    ensures p < |ws| ==> Before(ttd, ws[p].ttd)
    ensures forall j :: i <= j < p ==> !Before(ttd, ws[j].ttd)
    decreases |ws| - i
  {
    if i == |ws| || Before(ttd, ws[i].ttd) then i else Place(ws, ttd, i + 1)
  }

  function Insert(ws: seq<Waiter>, w: Waiter): (r: seq<Waiter>)
  {
    var p := Place(ws, w.ttd, 0);
    ws[..p] + [w] + ws[p..]
  }

  function Remove(ws: seq<Waiter>, i: nat): (r: seq<Waiter>)
    requires i < |ws|
    ensures |r| == |ws| - 1
  {
    ws[..i] + ws[i + 1..]
  }

  function MakeThread(s: State): (r: State)
  {
    s.(threads := s.threads + {s.maxtid}, runQueue := s.runQueue + [s.maxtid], maxtid := s.maxtid + 1)
  }

  /** A thread runs from its n-th call on, until waitEvent or yield gives up control or its function
      returns and threadWrapper queues it as a zombie. waitEvent on a key that is waited for returns
      an error and the thread goes on. */
  function RunThread(s: State, calls: seq<Call>, n: nat): (r: State)
    requires n <= |calls|
    decreases |calls| - n
  {
    if n == |calls| then s.(zombies := s.zombies + [s.tid])
    else match calls[n]
      case Make => RunThread(MakeThread(s), calls, n + 1)
      case Yield => s.(runQueue := s.runQueue + [s.tid])
      case Wait(key, timeoutMsec, now) =>
        if Find(s.waiters, key) < |s.waiters| then RunThread(s, calls, n + 1)
        else s.(waiters := Insert(s.waiters, Waiter(key, Deadline(timeoutMsec, now), s.tid)))
  }

  /** What a resumed thread gets from waitEvent. */
  datatype Wake = Wake(tid: nat, status: WaitStatus, key: int, val: int)

  /** Resumes the i-th waiter; waitEvent takes its own thread id back before it returns. */
  function Resume(s: State, i: nat, status: WaitStatus, val: int, calls: seq<Call>): (r: State)
    requires i < |s.waiters|
  {
    var w := s.waiters[i];
    RunThread(s.(waiters := Remove(s.waiters, i), tid := w.tid, waitstatus := status, waitval := val,
                 eventkey := w.key), calls, 0)
  }

  function SendEvent(s: State, key: int, val: Option<int>, calls: seq<Call>): (r: (State, Option<Wake>))
  {
    var i := Find(s.waiters, key);
    if i == |s.waiters| then (s, None)
    else
      var v := if val.Some? then val.value else s.waitval;
      (Resume(s, i, Answer, v, calls), Some(Wake(s.waiters[i].tid, Answer, s.waiters[i].key, v)))
  }

  /** The iterator of the timeout scan: a waiter's key, or the end. */
  type Cursor = Option<int>

  function CursorAt(ws: seq<Waiter>, i: nat): (c: Cursor)
  {
    if i < |ws| then Some(ws[i].key) else None
  }

  datatype ScanResult = ScanResult(state: State, wakes: seq<Wake>, hangs: bool)

  function Prefixed(wakes: seq<Wake>, r: ScanResult): (q: ScanResult)
  {
    r.(wakes := wakes + r.wakes)
  }

  function First(scripts: seq<seq<Call>>): (calls: seq<Call>)
  {
    if scripts == [] then [] else scripts[0]
  }

  function Rest(scripts: seq<seq<Call>>): (r: seq<seq<Call>>)
    ensures scripts != [] ==> |r| == |scripts| - 1
    ensures scripts == [] ==> r == []
  {
    if scripts == [] then [] else scripts[1..]
  }

  /** The timeout scan. A waiter without deadline under the cursor is neither woken nor stepped over,
      so the loop never ends. scripts say what each woken thread does; further ones just return. */
  function Scan(s: State, cursor: Cursor, now: Time, scripts: seq<seq<Call>>): (r: ScanResult)
    decreases |scripts|, |s.waiters|
  {
    if cursor.None? || Find(s.waiters, cursor.value) == |s.waiters| then ScanResult(s, [], false)
    else
      var i := Find(s.waiters, cursor.value);
      var w := s.waiters[i];
      if w.ttd.sec == 0 then ScanResult(s, [], true)
      else if !Before(w.ttd, now) then ScanResult(s, [], false)
      else
        var next := CursorAt(s.waiters, i + 1);
        var s' := Resume(s, i, TimeOut, s.waitval, First(scripts));
        ResumeReturns(s, i, TimeOut, s.waitval);
        Prefixed([Wake(w.tid, TimeOut, w.key, s.waitval)], Scan(s', next, now, Rest(scripts)))
  }

  lemma ResumeReturns(s: State, i: nat, status: WaitStatus, val: int)
    requires i < |s.waiters|
    ensures |Resume(s, i, status, val, []).waiters| < |s.waiters|
  {
  }

  /** The scan passes an expired waiter. */
  lemma ScanStep(s: State, cursor: Cursor, now: Time, scripts: seq<seq<Call>>, i: nat)
    requires cursor.Some? && i == Find(s.waiters, cursor.value) < |s.waiters|
    requires s.waiters[i].ttd.sec != 0 && Before(s.waiters[i].ttd, now)
    ensures
      var s' := Resume(s, i, TimeOut, s.waitval, First(scripts));
      && Scan(s, cursor, now, scripts)
        == Prefixed([Wake(s.waiters[i].tid, TimeOut, s.waiters[i].key, s.waitval)],
                    Scan(s', CursorAt(s.waiters, i + 1), now, Rest(scripts)))
      && (scripts == [] ==> |s'.waiters| < |s.waiters|)
  {
    hide Resume, Find;
    ResumeReturns(s, i, TimeOut, s.waitval);
  }

  /** The scan ends here, or hangs. */
  lemma ScanEnd(s: State, cursor: Cursor, now: Time, scripts: seq<seq<Call>>)
    ensures cursor.None? || Find(s.waiters, cursor.value) == |s.waiters| ==>
      Scan(s, cursor, now, scripts) == ScanResult(s, [], false)
    ensures cursor.Some? && Find(s.waiters, cursor.value) < |s.waiters| ==>
      var w := s.waiters[Find(s.waiters, cursor.value)];
      && (w.ttd.sec == 0 ==> Scan(s, cursor, now, scripts) == ScanResult(s, [], true))
      && (w.ttd.sec != 0 && !Before(w.ttd, now) ==> Scan(s, cursor, now, scripts) == ScanResult(s, [], false))
  {
    hide Resume, Find;
  }

  datatype ScheduleResult = ScheduleResult(state: State, more: bool, wakes: seq<Wake>, hangs: bool)

  /** One call of schedule: a runnable thread, else a zombie, else the timeout scan. The thread stays
      at the front of the run queue while it runs. */
  function Schedule(s: State, now: Time, scripts: seq<seq<Call>>): (r: ScheduleResult)
  {
    if s.runQueue != [] then
      var s' := RunThread(s.(tid := s.runQueue[0]), First(scripts), 0);
      RunKeepsFront(s.(tid := s.runQueue[0]), First(scripts), 0);
      ScheduleResult(s'.(runQueue := s'.runQueue[1..]), true, [], false)
    else if s.zombies != [] then
      ScheduleResult(s.(threads := s.threads - {s.zombies[0]}, zombies := s.zombies[1..]), true, [], false)
    else
      var r := Scan(s, CursorAt(s.waiters, 0), now, scripts);
      ScheduleResult(r.state, false, r.wakes, r.hangs)
  }

  lemma {:induction false} RunKeepsFront(s: State, calls: seq<Call>, n: nat)
    requires n <= |calls|
    ensures s.runQueue <= RunThread(s, calls, n).runQueue
    decreases |calls| - n
  {
    if n < |calls| {
      match calls[n]
      case Make => RunKeepsFront(MakeThread(s), calls, n + 1);
      case Yield =>
      case Wait(key, _, _) =>
        if Find(s.waiters, key) < |s.waiters| {
          RunKeepsFront(s, calls, n + 1);
        }
    }
  }

  function Start(): (s: State)
  {
    State([], [], {}, [], 0, 0, Error, 0, 0)
  }

  // ---- the object ----

  lemma PrefixNone(r: ScanResult)
    ensures Prefixed([], r) == r
  {
  }

  lemma PrefixEnd(wakes: seq<Wake>, s: State, hangs: bool)
    ensures Prefixed(wakes, ScanResult(s, [], hangs)) == ScanResult(s, wakes, hangs)
  {
  }

  lemma PrefixMore(wakes: seq<Wake>, wake: Wake, r: ScanResult)
    ensures Prefixed(wakes, Prefixed([wake], r)) == Prefixed(wakes + [wake], r)
  {
    assert wakes + ([wake] + r.wakes) == wakes + [wake] + r.wakes;
  }

  class MTasker {
    var runQueue: seq<nat>
    var zombies: seq<nat>
    var threads: set<nat>
    var waiters: seq<Waiter>
    var tid: nat
    var maxtid: nat
    var waitstatus: WaitStatus
    var waitval: int
    var eventkey: int

    function View(): (s: State)
      reads this
    {
      State(runQueue, zombies, threads, waiters, tid, maxtid, waitstatus, waitval, eventkey)
    }

    constructor ()
      ensures View() == Start()
    {
      runQueue, zombies, threads, waiters := [], [], {}, [];
      tid, maxtid, waitstatus, waitval, eventkey := 0, 0, Error, 0, 0;
    }

    method NewThread()
      modifies this
      ensures View() == MakeThread(old(View()))
    {
      threads := threads + {maxtid};
      runQueue := runQueue + [maxtid];
      maxtid := maxtid + 1;
    }

    /** waitEvent up to the switch to the kernel; false: the key was taken. */
    method WaitEvent(key: int, timeoutMsec: u32, now: Time) returns (waits: bool)
      modifies this`waiters
      ensures waits == (Find(old(waiters), key) == |old(waiters)|)
      ensures waiters
           == if waits then Insert(old(waiters), Waiter(key, Deadline(timeoutMsec, now), tid)) else old(waiters)
    {
      if Find(waiters, key) < |waiters| {
        return false;
      }
      var ttd := Time(0, 0);
      if timeoutMsec != 0 {
        ttd := Deadline(timeoutMsec, now);
      }
      waiters := Insert(waiters, Waiter(key, ttd, tid));
      return true;
    }

    /** A thread has control until it waits, yields or its function returns. */
    method RunOn(calls: seq<Call>)
      modifies this
      ensures View() == RunThread(old(View()), calls, 0)
    {
      var n := 0;
      while n < |calls|
        invariant n <= |calls|
        invariant RunThread(View(), calls, n) == RunThread(old(View()), calls, 0)
      {
        match calls[n] {
          case Make => NewThread();
          case Yield =>
            runQueue := runQueue + [tid];
            return;
          case Wait(key, timeoutMsec, now) =>
            var waits := WaitEvent(key, timeoutMsec, now);
            if waits {
              return;
            }
        }
        n := n + 1;
      }
      zombies := zombies + [tid];
    }

    method WakeUp(i: nat, status: WaitStatus, calls: seq<Call>) returns (wake: Wake)
      requires i < |waiters|
      modifies this
      ensures View() == Resume(old(View()), i, status, old(waitval), calls)
      ensures wake == Wake(old(waiters)[i].tid, status, old(waiters)[i].key, old(waitval))
    {
      waitstatus := status;
      eventkey := waiters[i].key;
      tid := waiters[i].tid;
      waiters := Remove(waiters, i);
      wake := Wake(tid, waitstatus, eventkey, waitval);
      RunOn(calls);
    }

    method Send(key: int, val: Option<int>, calls: seq<Call>) returns (wake: Option<Wake>)
      modifies this
      ensures (View(), wake) == SendEvent(old(View()), key, val, calls)
    {
      var i := Find(waiters, key);
      if i == |waiters| {
        return None;
      }
      if val.Some? {
        waitval := val.value;
      }
      var w := WakeUp(i, Answer, calls);
      wake := Some(w);
    }

    /** The timeout scan; hangs: the loop in schedule does not end. */
    method TimeOuts(now: Time, scripts: seq<seq<Call>>) returns (wakes: seq<Wake>, hangs: bool)
      modifies this
      ensures ScanResult(View(), wakes, hangs) == Scan(old(View()), CursorAt(old(waiters), 0), now, scripts)
    {
      hide Scan, Resume, Find, CursorAt, First, Rest, Prefixed;
      var cursor := CursorAt(waiters, 0);
      var rest := scripts;
      wakes, hangs := [], false;
      PrefixNone(Scan(View(), cursor, now, rest));
      while true
        invariant Scan(old(View()), CursorAt(old(waiters), 0), now, scripts)
          == Prefixed(wakes, Scan(View(), cursor, now, rest))
        decreases |rest|, |waiters|
      {
        ScanEnd(View(), cursor, now, rest);
        if cursor.None? || Find(waiters, cursor.value) == |waiters| {
          PrefixEnd(wakes, View(), false);
          return;
        }
        var i := Find(waiters, cursor.value);
        if waiters[i].ttd.sec != 0 && Before(waiters[i].ttd, now) {
          ScanStep(View(), cursor, now, rest, i);
          cursor := CursorAt(waiters, i + 1);
          var wake := WakeUp(i, TimeOut, First(rest));
          rest := Rest(rest);
          PrefixMore(wakes, wake, Scan(View(), cursor, now, rest));
          wakes := wakes + [wake];
        } else if waiters[i].ttd.sec != 0 {
          PrefixEnd(wakes, View(), false);
          return;
        } else {
          hangs := true;
          PrefixEnd(wakes, View(), true);
          return;
        }
      }
    }

    method ScheduleOnce(now: Time, scripts: seq<seq<Call>>) returns (more: bool, wakes: seq<Wake>, hangs: bool)
      modifies this
      ensures ScheduleResult(View(), more, wakes, hangs) == Schedule(old(View()), now, scripts)
    {
      wakes, hangs := [], false;
      if runQueue != [] {
        tid := runQueue[0];
        RunKeepsFront(View(), First(scripts), 0);
        RunOn(First(scripts));
        runQueue := runQueue[1..];
        return true, [], false;
      }
      if zombies != [] {
        threads := threads - {zombies[0]};
        zombies := zombies[1..];
        return true, [], false;
      }
      more := false;
      if waiters != [] {
        wakes, hangs := TimeOuts(now, scripts);
      }
    }
  }
}
