/** The scheduler's timeout scan: when it ends, and whom it wakes. */
module SchedulerTimeouts {
  import opened Bytes
  import opened MTasker
  import opened SchedulerInvariant

  // ---- the timeout scan ----

  /** A cursor that will not trap the scan. */
  ghost predicate Passable(ws: seq<Waiter>, cursor: Cursor)
  {
    cursor.Some? ==> exists w :: w in ws && w.key == cursor.value && w.ttd.sec > 0
  }

  lemma PassableAt(s: State, cursor: Cursor) returns (i: nat)
    requires Inv(s) && Passable(s.waiters, cursor) && cursor.Some?
    ensures i < |s.waiters| && i == Find(s.waiters, cursor.value)
    ensures s.waiters[i].key == cursor.value && s.waiters[i].ttd.sec > 0
  {
    var w :| w in s.waiters && w.key == cursor.value && w.ttd.sec > 0;
    i :| 0 <= i < |s.waiters| && s.waiters[i] == w;
    FindUnique(s.waiters, i);
  }

  lemma NextLater(s: State, i: nat)
    requires Inv(s) && i + 1 < |s.waiters|
    ensures s.waiters[i].ttd.sec <= s.waiters[i + 1].ttd.sec && s.waiters[i + 1] != s.waiters[i]
  {
    assert !Before(s.waiters[i + 1].ttd, s.waiters[i].ttd);
  }

  lemma {:induction false} PassableScanEnds(s: State, cursor: Cursor, now: Time, scripts: seq<seq<Call>>)
    requires Inv(s) && Passable(s.waiters, cursor)
    ensures !Scan(s, cursor, now, scripts).hangs
    decreases |scripts|, |s.waiters|
  {
    hide Inv, Find, Resume, Scan;
    ScanEnd(s, cursor, now, scripts);
    if cursor.Some? {
      var i := PassableAt(s, cursor);
      if Before(s.waiters[i].ttd, now) {
        var s' := Resume(s, i, TimeOut, s.waitval, First(scripts));
        ResumeKeeps(s, i, TimeOut, s.waitval, First(scripts));
        ScanStep(s, cursor, now, scripts, i);
        if i + 1 < |s.waiters| {
          NextLater(s, i);
          ResumeLeaves(s, i, TimeOut, s.waitval, First(scripts), s.waiters[i + 1]);
          assert s.waiters[i + 1] in s'.waiters;
        }
        PassableScanEnds(s', CursorAt(s.waiters, i + 1), now, Rest(scripts));
      }
    }
  }

  /** With idle queues, schedule never returns exactly when some thread waits without a deadline. */
  lemma HangsIff(s: State, now: Time, scripts: seq<seq<Call>>)
    requires Inv(s) && s.runQueue == [] && s.zombies == []
    requires forall w :: w in s.waiters ==> w.ttd.sec >= 0
    ensures Schedule(s, now, scripts).hangs <==> exists w :: w in s.waiters && w.ttd.sec == 0
  {
    hide *;
    if s.waiters == [] {
      ScanNone(s, now, scripts);
    } else {
      ScanFirst(s, now, scripts);
      FirstEarliest(s);
      var w0 := s.waiters[0];
      assert w0 in s.waiters;
      if w0.ttd.sec != 0 {
        PassableFirst(s);
        PassableScanEnds(s, CursorAt(s.waiters, 0), now, scripts);
      }
    }
  }

  /** One thread that waits without a deadline is enough. */
  lemma WaiterTraps(key: int, now: Time)
    ensures
      var s := Run([Launch, Step(now, [[Wait(key, 0, now)]])]);
      s.runQueue == [] && s.zombies == [] && Schedule(s, now, []).hangs
  {
    var s1 := Run([Launch]);
    assert [Launch][..0] == [];
    assert s1 == MakeThread(Start());
    var step := Step(now, [[Wait(key, 0, now)]]);
    assert [Launch, step][..1] == [Launch];
    var s := Run([Launch, step]);
    assert s == Schedule(s1, now, [[Wait(key, 0, now)]]).state;
    assert s.waiters == [Waiter(key, Time(0, 0), 0)];
  }

  lemma PassableFirst(s: State)
    requires s.waiters != [] && s.waiters[0].ttd.sec > 0
    ensures Passable(s.waiters, CursorAt(s.waiters, 0))
  {
    assert s.waiters[0] in s.waiters;
  }

  lemma ScanNone(s: State, now: Time, scripts: seq<seq<Call>>)
    requires s.runQueue == [] && s.zombies == [] && s.waiters == []
    ensures !Schedule(s, now, scripts).hangs
  {
  }

  lemma ScanFirst(s: State, now: Time, scripts: seq<seq<Call>>)
    requires s.runQueue == [] && s.zombies == [] && s.waiters != []
    ensures Schedule(s, now, scripts).hangs == Scan(s, CursorAt(s.waiters, 0), now, scripts).hangs
    ensures s.waiters[0].ttd.sec == 0 ==> Scan(s, CursorAt(s.waiters, 0), now, scripts).hangs
  {
  }

  lemma FirstEarliest(s: State)
    requires Inv(s) && s.waiters != []
    ensures forall w :: w in s.waiters ==> s.waiters[0].ttd.sec <= w.ttd.sec
  {
    forall w | w in s.waiters
      ensures s.waiters[0].ttd.sec <= w.ttd.sec
    {
      var i :| 0 <= i < |s.waiters| && s.waiters[i] == w;
      assert i > 0 ==> !Before(s.waiters[i].ttd, s.waiters[0].ttd);
    }
  }

  /** How many waiters at the front of the deadline index have expired. */
  function Due(ws: seq<Waiter>, now: Time): (k: nat)
    ensures k <= |ws|
    ensures k < |ws| ==> !Before(ws[k].ttd, now)
    ensures forall i :: 0 <= i < k ==> Before(ws[i].ttd, now)
    decreases |ws|
  {
    if ws == [] || !Before(ws[0].ttd, now) then 0 else 1 + Due(ws[1..], now)
  }

  /** The first k waiters have expired and the others have not; all have a deadline. */
  ghost predicate Split(ws: seq<Waiter>, k: nat, now: Time)
  {
    && k <= |ws|
    && (forall i :: 0 <= i < k ==> Before(ws[i].ttd, now))
    && (forall i :: k <= i < |ws| ==> !Before(ws[i].ttd, now))
    && (forall i :: 0 <= i < |ws| ==> ws[i].ttd.sec > 0)
  }

  lemma DueSplits(ws: seq<Waiter>, now: Time)
    requires Ordered(ws) && forall w :: w in ws ==> w.ttd.sec > 0
    ensures Split(ws, Due(ws, now), now)
  {
    hide Due;
    var k := Due(ws, now);
    forall i | k <= i < |ws| ensures !Before(ws[i].ttd, now) {
      assert i > k ==> !Before(ws[i].ttd, ws[k].ttd);
    }
  }

  /** Every wait the woken threads start has a timeout, counted from a clock not behind the scan's. */
  ghost predicate Tame(calls: seq<Call>, now: Time)
  {
    forall i :: 0 <= i < |calls| && calls[i].Wait? ==>
      calls[i].timeoutMsec > 0 && Reading(calls[i].now) && !Before(calls[i].now, now)
  }

  lemma InsertSplit(ws: seq<Waiter>, w: Waiter, k: nat, now: Time)
    requires Split(ws, k, now) && !Before(w.ttd, now) && w.ttd.sec > 0
    ensures Split(Insert(ws, w), k, now) && Insert(ws, w)[..k] == ws[..k]
  {
    hide Insert, Place;
    var p := Place(ws, w.ttd, 0);
    assert p >= k;
    InsertAt(ws, w, 0);
    var r := Insert(ws, w);
    forall i | 0 <= i < |r|
      ensures r[i].ttd.sec > 0 && (i < k ==> r[i] == ws[i]) && (Before(r[i].ttd, now) <==> i < k)
    {
      InsertAt(ws, w, i);
    }
  }

  lemma {:induction false} RunTame(s: State, calls: seq<Call>, n: nat, k: nat, now: Time)
    requires n <= |calls| && Tame(calls, now) && Split(s.waiters, k, now)
    ensures
      var r := RunThread(s, calls, n);
      Split(r.waiters, k, now) && r.waiters[..k] == s.waiters[..k] && r.waitval == s.waitval
    decreases |calls| - n
  {
    hide Split;
    if n < |calls| {
      match calls[n] {
        case Make => RunTame(MakeThread(s), calls, n + 1, k, now);
        case Yield =>
        case Wait(key, timeoutMsec, start) =>
          if Find(s.waiters, key) < |s.waiters| {
            RunTame(s, calls, n + 1, k, now);
          } else {
            DeadlineAhead(timeoutMsec, start, now);
            InsertSplit(s.waiters, Waiter(key, Deadline(timeoutMsec, start), s.tid), k, now);
          }
      }
    }
  }

  lemma RemoveFirst(ws: seq<Waiter>, k: nat, now: Time)
    requires Split(ws, k, now) && 0 < k
    ensures k <= |ws| && Remove(ws, 0) == ws[1..] && Split(ws[1..], k - 1, now) && ws[1..][..k - 1] == ws[1..k]
  {
  }

  lemma SplitLength(ws: seq<Waiter>, k: nat, now: Time)
    requires Split(ws, k, now)
    ensures k <= |ws|
  {
  }

  lemma ResumeFirst(s: State, k: nat, calls: seq<Call>, now: Time)
    requires Inv(s) && Split(s.waiters, k, now) && 0 < k && Tame(calls, now)
    ensures
      var r := Resume(s, 0, TimeOut, s.waitval, calls);
      && Inv(r) && Split(r.waiters, k - 1, now) && k <= |s.waiters| && k - 1 <= |r.waiters|
      && r.waiters[..k - 1] == s.waiters[1..k] && r.waitval == s.waitval
  {
    hide Inv, Split, Tame, Remove, RunThread;
    RemoveFirst(s.waiters, k, now);
    ResumeKeeps(s, 0, TimeOut, s.waitval, calls);
    var s0 := s.(waiters := s.waiters[1..], tid := s.waiters[0].tid, waitstatus := TimeOut,
                 eventkey := s.waiters[0].key);
    RunTame(s0, calls, 0, k - 1, now);
    SplitLength(RunThread(s0, calls, 0).waiters, k - 1, now);
  }

  /** The wake-ups for a list of waiters, in order. */
  function Wakes(ws: seq<Waiter>, val: int): (r: seq<Wake>)
    ensures |r| == |ws|
  {
    seq(|ws|, i requires 0 <= i < |ws| => Wake(ws[i].tid, TimeOut, ws[i].key, val))
  }

  lemma LateStays(s: State, k: nat, i: nat, r: State, now: Time)
    requires 0 < k <= i < |s.waiters| && Split(s.waiters, k, now) && Split(r.waiters, k - 1, now)
    requires s.waiters[i] != s.waiters[0] && s.waiters[i] in r.waiters
    ensures exists j :: k - 1 <= j < |r.waiters| && r.waiters[j] == s.waiters[i]
  {
  }

  lemma Late(s: State, k: nat, i: nat, now: Time)
    requires 0 < k <= i < |s.waiters| && Split(s.waiters, k, now)
    ensures s.waiters[i] != s.waiters[0]
  {
  }

  lemma ScanFound(s: State, k: nat, now: Time)
    requires 0 < k && Split(s.waiters, k, now)
    ensures k <= |s.waiters| && Before(s.waiters[0].ttd, now) && s.waiters[0].ttd.sec > 0
    ensures Find(s.waiters, s.waiters[0].key) == 0
  {
  }

  lemma ScanStops(s: State, cursor: Cursor, now: Time, scripts: seq<seq<Call>>)
    requires Split(s.waiters, 0, now)
    ensures Scan(s, cursor, now, scripts) == ScanResult(s, [], false)
  {
    hide Find;
  }

  lemma FirstTame(scripts: seq<seq<Call>>, now: Time)
    requires forall i :: 0 <= i < |scripts| ==> Tame(scripts[i], now)
    ensures Tame(First(scripts), now)
  {
  }

  lemma WakesStep(ws: seq<Waiter>, k: nat, val: int)
    requires 0 < k <= |ws|
    ensures Wakes(ws[..k], val) == [Wake(ws[0].tid, TimeOut, ws[0].key, val)] + Wakes(ws[1..k], val)
  {
  }

  lemma {:induction false} ScanTame(s: State, k: nat, cursor: Cursor, now: Time, scripts: seq<seq<Call>>)
    requires Inv(s) && Split(s.waiters, k, now)
    requires k > 0 ==> cursor == Some(s.waiters[0].key)
    requires forall i :: 0 <= i < |scripts| ==> Tame(scripts[i], now)
    ensures
      var r := Scan(s, cursor, now, scripts);
      && !r.hangs && r.wakes == Wakes(s.waiters[..k], s.waitval)
      && Split(r.state.waiters, 0, now)
      && (forall i :: k <= i < |s.waiters| ==> s.waiters[i] in r.state.waiters)
    decreases |scripts|, |s.waiters|
  {
    hide Inv, Split, Resume, Find, Scan, Tame;
    if k > 0 {
      ScanFound(s, k, now);
      var calls := First(scripts);
      var s' := Resume(s, 0, TimeOut, s.waitval, calls);
      FirstTame(scripts, now);
      ResumeFirst(s, k, calls, now);
      ScanStep(s, cursor, now, scripts, 0);
      ScanTame(s', k - 1, CursorAt(s.waiters, 1), now, Rest(scripts));
      WakesStep(s.waiters, k, s.waitval);
      forall i | k <= i < |s.waiters|
        ensures s.waiters[i] in Scan(s, cursor, now, scripts).state.waiters
      {
        Late(s, k, i, now);
        ResumeLeaves(s, 0, TimeOut, s.waitval, calls, s.waiters[i]);
        LateStays(s, k, i, s', now);
      }
    } else {
      ScanStops(s, cursor, now, scripts);
      assert s.waiters[..0] == [];
    }
  }

  /** With deadlines on all waiters, and waits started during the scan not expired already, one call
      of schedule on idle queues ends, wakes exactly the expired waiters, in deadline order and with
      status TimeOut, and leaves the others waiting. */
  lemma ScanExact(s: State, now: Time, scripts: seq<seq<Call>>)
    requires Inv(s) && s.runQueue == [] && s.zombies == []
    requires forall w :: w in s.waiters ==> w.ttd.sec > 0
    requires forall i :: 0 <= i < |scripts| ==> Tame(scripts[i], now)
    ensures
      var r := Schedule(s, now, scripts);
      var k := Due(s.waiters, now);
      && !r.hangs && !r.more
      && r.wakes == Wakes(s.waiters[..k], s.waitval)
      && (forall w :: w in s.waiters[..k] <==> w in s.waiters && Before(w.ttd, now))
      && (forall w :: w in s.waiters && !Before(w.ttd, now) ==> w in r.state.waiters)
      && (forall w :: w in r.state.waiters ==> !Before(w.ttd, now))
  {
    hide Scan, Due, Wakes;
    var k := Due(s.waiters, now);
    DueSplits(s.waiters, now);
    ScanTame(s, k, CursorAt(s.waiters, 0), now, scripts);
  }
}
