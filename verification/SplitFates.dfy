/** When a run of splitpipe can end, and a run that joinpipe rejects. */
module SplitFates {
  import opened Bytes
  import opened Stretches
  import opened SessionLog
  import opened SplitCourse
  import Md5

  /** What a new volume has left for stretches of data. */
  function Capacity(c: Config): (n: nat)
  {
    LeftIn(c.volumeSize, HeaderLength(c.uuid, c.name) % TWO64)
  }

  lemma SpawnedIs(c: Config, p: Pipe, now: u32)
    requires GoodConfig(c)
    ensures var r := Spawned(c, p, now);
            && r.left == p.left && r.amount < TWO64 && LeftIn(c.volumeSize, r.amount) == Capacity(c)
            && !r.waitingForUser
            && r.startedAtThree == p.startedAtThree && r.volumes == p.volumes
  {
    HeaderFits(c.uuid, now, c.name, p.volumeNumber);
    hide HeaderStretches, EncodeAll, LeftIn;
  }

  // ---------------------------------------------------------------- volumes without room for data

  /** Nothing has been sent, and a volume has room for the header of a stretch at most. */
  predicate Barren(c: Config, s: Course)
  {
    && Sane(c, s) && s.sent == 0 && s.pipe.left == 0 && (s.pipe.inputEof ==> s.pipe.consumed == |c.input|)
    && (s.pipe.status == Working ==> s.pipe.amount < TWO64 && LeftIn(c.volumeSize, s.pipe.amount) <= 3)
  }

  lemma BarrenSend(c: Config, s: Course, writes: seq<nat>, bytesRead: nat)
    requires GoodConfig(c) && Barren(c, s) && s.pipe.status == Working && s.sent < s.pipe.consumed
    ensures Barren(c, Send(c, s, writes, 0, 0, bytesRead))
  {
    hide LeftIn, Reach, Encode, Md5.Digest, Header;
    if Starting(c, s.pipe) {
      LeftAfter(c.volumeSize, s.pipe.amount, 3);
    }
  }

  lemma BarrenPass(c: Config, s: Course, ev: Event)
    requires GoodConfig(c) && Capacity(c) <= 3 && Barren(c, s)
    ensures Barren(c, Passed(c, s, ev))
  {
    hide LeftIn, Spawned, Send, Capacity, WorthStarting;
    SpawnedIs(c, s.pipe, ev.now);
    var s1 := Kept(s, Tended(c, s.pipe, ev, Buffered(c, s)));
    assert Barren(c, s1);
    if ev.ready {
      SpawnedIs(c, s1.pipe, ev.now);
      var s2 := Kept(s1, Keyed(c, s1.pipe, ev));
      hide Tended, Keyed;
      assert Barren(c, s2);
      var (s3, n) := Fed(c, s2, ev);
      assert Barren(c, s3);
      if Writing(s3) {
        BarrenSend(c, s3, ev.writes, n);
      }
    }
  }

  lemma {:induction false} BarrenRun(c: Config, events: seq<Event>, n: nat)
    requires GoodConfig(c) && Capacity(c) <= 3 && n <= |events|
    ensures Barren(c, Run(c, events, n).0) && (Run(c, events, n).1 ==> c.input == [])
  {
    hide Passed, Capacity;
    if n > 0 {
      BarrenRun(c, events, n - 1);
      var before := Run(c, events, n - 1);
      if !before.1 {
        BarrenPass(c, before.0, events[n - 1]);
      }
    }
  }

  // ---------------------------------------------------------------- every reachable state

  /** The rest of the open stretch is buffered in one piece and fits the volume. */
  predicate StretchReady(c: Config, s: Course)
    requires Sane(c, s)
  {
    && s.pipe.amount < TWO64
    && (s.pipe.left > 0 ==> s.pipe.status == Working && s.pipe.left <= Reach(c, s)
                            && s.pipe.left <= LeftIn(c.volumeSize, s.pipe.amount))
  }

  predicate Good(c: Config, s: Course)
  {
    && Sane(c, s) && StretchReady(c, s) && Buffered(c, s) <= c.bufferSize
    && (s.pipe.inputEof ==> s.pipe.consumed == |c.input|)
    && (s.pipe.waitingForUser ==> s.pipe.status == Dead)
  }

  lemma GoodStarted(c: Config, s: Course)
    requires GoodConfig(c) && Good(c, s) && s.pipe.status == Working && Starting(c, s.pipe)
    ensures Good(c, Kept(s, Started(c, s.pipe, Reach(c, s))))
  {
    LeftAfter(c.volumeSize, s.pipe.amount, 3);
    hide LeftIn, Header;
    var size := StretchSize(Reach(c, s), LeftIn(c.volumeSize, s.pipe.amount));
    hide StretchSize;
    assert Reach(c, Kept(s, Started(c, s.pipe, Reach(c, s)))) == Reach(c, s);
    hide Reach;
  }

  lemma GoodWrote(c: Config, s: Course, n: nat)
    requires GoodConfig(c) && Good(c, s) && s.pipe.status == Working && 0 < n <= Sendable(c, s)
    ensures Good(c, Wrote(c, s, n))
  {
    LeftAfter(c.volumeSize, s.pipe.amount, n);
    hide LeftIn;
    if n < s.pipe.left {
      ReachShrinks(c, s, Wrote(c, s, n), n);
    }
    hide Reach;
  }

  lemma ReachShrinks(c: Config, s: Course, r: Course, n: nat)
    requires Sane(c, s) && Sane(c, r) && r.pipe.consumed == s.pipe.consumed && r.sent == s.sent + n && n < Reach(c, s)
    ensures Reach(c, r) == Reach(c, s) - n
  {
    var m := c.bufferSize + 1;
    var q, k := s.sent / m, s.sent % m;
    assert s.sent + n == q * m + (k + n);
    ModUnique(s.sent + n, m, q, k + n);
  }

  lemma {:induction false} GoodSend(c: Config, s: Course, writes: seq<nat>, w: nat, total: nat, bytesRead: nat)
    requires GoodConfig(c) && Good(c, s) && s.pipe.status == Working && s.sent < s.pipe.consumed && w <= |writes|
    ensures Good(c, Send(c, s, writes, w, total, bytesRead))
    decreases |writes| - w
  {
    hide Started, Wrote, Sendable, Starting, Clamp, Md5.Digest, Encode, StretchReady;
    if Starting(c, s.pipe) {
      GoodStarted(c, s);
    } else if Sendable(c, s) == 0 {
      GoodClosed(c, s);
    } else if w < |writes| && writes[w] > 0 {
      var n := Clamp(writes[w], 1, Sendable(c, s));
      GoodWrote(c, s, n);
      var s' := Wrote(c, s, n);
      if total + n < bytesRead && s'.sent < s'.pipe.consumed {
        WroteWorking(c, s, n);
        GoodSend(c, s', writes, w + 1, total + n, bytesRead);
      }
    }
  }

  lemma WroteWorking(c: Config, s: Course, n: nat)
    requires Sane(c, s) && n <= Sendable(c, s)
    ensures Wrote(c, s, n).pipe.status == s.pipe.status
  {
  }

  lemma GoodClosed(c: Config, s: Course)
    requires GoodConfig(c) && Good(c, s) && s.pipe.status == Working && s.sent < s.pipe.consumed && Sendable(c, s) == 0
    ensures Good(c, Kept(s, ClosedVolume(c, s.pipe, c.input[..s.sent])))
  {
    hide Encode, Md5.Digest, LeftIn;
    assert s.pipe.left == 0;
    hide Reach;
  }

  lemma GoodFed(c: Config, s: Course, ev: Event)
    requires GoodConfig(c) && Good(c, s)
    ensures Good(c, Fed(c, s, ev).0)
  {
    hide LeftIn;
  }

  lemma GoodTended(c: Config, s: Course, ev: Event)
    requires GoodConfig(c) && Good(c, s)
    ensures Good(c, Kept(s, Tended(c, s.pipe, ev, Buffered(c, s))))
  {
    hide LeftIn, Spawned, WorthStarting, Reach;
    SpawnedIs(c, s.pipe, ev.now);
    ReachKept(c, s, Tended(c, s.pipe, ev, Buffered(c, s)));
  }

  lemma GoodKeyed(c: Config, s: Course, ev: Event)
    requires GoodConfig(c) && Good(c, s)
    ensures Good(c, Kept(s, Keyed(c, s.pipe, ev)))
  {
    hide LeftIn, Spawned, Reach;
    SpawnedIs(c, s.pipe, ev.now);
    ReachKept(c, s, Keyed(c, s.pipe, ev));
  }

  lemma GoodPass(c: Config, s: Course, ev: Event)
    requires GoodConfig(c) && Good(c, s)
    ensures Good(c, Passed(c, s, ev))
  {
    hide LeftIn, Tended, Keyed, Send, Fed, Reach;
    GoodTended(c, s, ev);
    if ev.ready {
      var s1 := Kept(s, Tended(c, s.pipe, ev, Buffered(c, s)));
      GoodKeyed(c, s1, ev);
      var s2 := Kept(s1, Keyed(c, s1.pipe, ev));
      GoodFed(c, s2, ev);
      var (s3, n) := Fed(c, s2, ev);
      if Writing(s3) {
        GoodSend(c, s3, ev.writes, 0, 0, n);
      }
    }
  }

  lemma ReachKept(c: Config, s: Course, p: Pipe)
    requires Sane(c, s) && p.consumed == s.pipe.consumed
    ensures Reach(c, Kept(s, p)) == Reach(c, s)
  {
  }

  lemma {:induction false} GoodRun(c: Config, events: seq<Event>, n: nat)
    requires GoodConfig(c) && n <= |events|
    ensures Good(c, Run(c, events, n).0)
  {
    hide Passed;
    if n > 0 {
      GoodRun(c, events, n - 1);
      var before := Run(c, events, n - 1);
      if !before.1 {
        GoodPass(c, before.0, events[n - 1]);
      }
    }
  }

  // ---------------------------------------------------------------- runs end

  /** A pass in which everything is possible: the command has exited, the user has pressed enter, input
      can be read and output written. */
  const EAGER: Event := Event(true, true, true, true, 100000, true, [0xffff], 0)

  /** Input still to be read and to be sent, and the end of the input to be seen. */
  function Outstanding(c: Config, s: Course): (n: nat)
    requires Sane(c, s)
  {
    (|c.input| - s.pipe.consumed) + (|c.input| - s.sent) + (if s.pipe.inputEof then 0 else 1)
  }

  /** How many passes until data is sent, when nothing can be read. */
  function Steps(c: Config, s: Course): (n: nat)
  {
    if s.pipe.status == Dead then 2
    else if s.pipe.status == Dying then 3
    else if s.pipe.left > 0 then 0
    else if LeftIn(c.volumeSize, s.pipe.amount) >= 4 then 1
    else if LeftIn(c.volumeSize, s.pipe.amount) == 3 then 5
    else 4
  }

  /** The loop is closer to its end. */
  predicate Nearer(c: Config, s: Course, r: Course)
  {
    && Sane(c, s) && Sane(c, r)
    && (Outstanding(c, r) < Outstanding(c, s) || (Outstanding(c, r) == Outstanding(c, s) && Steps(c, r) < Steps(c, s)))
  }

  /** One eager pass over the inner loop with data buffered and nothing read. */
  lemma EagerSend(c: Config, s: Course)
    requires GoodConfig(c) && Good(c, s) && s.pipe.status == Working && s.sent < s.pipe.consumed
    ensures Nearer(c, s, Send(c, s, [0xffff], 0, 0, 0))
  {
    hide LeftIn, Encode, Md5.Digest, Header, Reach;
    if Starting(c, s.pipe) {
      LeftAfter(c.volumeSize, s.pipe.amount, 3);
    }
  }

  lemma SendOutstanding(c: Config, s: Course, bytesRead: nat)
    requires GoodConfig(c) && Good(c, s) && s.pipe.status == Working && s.sent < s.pipe.consumed
    ensures Outstanding(c, Send(c, s, [0xffff], 0, 0, bytesRead)) <= Outstanding(c, s)
  {
    hide LeftIn, Encode, Md5.Digest, Header, Reach, Started, ClosedVolume, Starting;
  }

  /** With input to be read, it is read. */
  lemma EagerReads(c: Config, s: Course)
    requires GoodConfig(c) && Good(c, s) && !s.pipe.inputEof && Buffered(c, s) < c.bufferSize
    ensures Outstanding(c, Served(c, s, EAGER)) < Outstanding(c, s)
  {
    hide LeftIn, Spawned, Send, Reach;
    GoodKeyed(c, s, EAGER);
    var s2 := Kept(s, Keyed(c, s.pipe, EAGER));
    GoodFed(c, s2, EAGER);
    var (s3, n) := Fed(c, s2, EAGER);
    assert Outstanding(c, s3) < Outstanding(c, s);
    if Writing(s3) {
      SendOutstanding(c, s3, n);
    }
  }

  /** With nothing to be read, a working command is given more; another may be replaced. */
  lemma EagerWrites(c: Config, s: Course)
    requires GoodConfig(c) && Good(c, s) && s.sent < s.pipe.consumed
    requires s.pipe.inputEof || Buffered(c, s) == c.bufferSize
    ensures var r := Served(c, s, EAGER);
            if s.pipe.status == Working then Nearer(c, s, r) else r == Kept(s, Keyed(c, s.pipe, EAGER))
  {
    hide LeftIn, Send, Reach, Spawned;
    if s.pipe.status == Working {
      EagerSend(c, s);
    }
  }

  /** An eager pass brings the loop nearer to its end, or ends it. */
  lemma EagerPass(c: Config, s: Course)
    requires GoodConfig(c) && Capacity(c) >= 4 && Good(c, s)
    ensures var r := Passed(c, s, EAGER); Drained(r) || Nearer(c, s, r)
  {
    hide LeftIn, Spawned, Send, Reach, Served, Capacity;
    GoodTended(c, s, EAGER);
    SpawnedIs(c, s.pipe, 0);
    var s1 := Kept(s, Tended(c, s.pipe, EAGER, Buffered(c, s)));
    if !s.pipe.inputEof && Buffered(c, s) < c.bufferSize {
      EagerReads(c, s1);
    } else if s.sent < s.pipe.consumed {
      EagerWrites(c, s1);
      SpawnedIs(c, s1.pipe, 0);
      EagerChange(c, s);
    } else {
      EagerIdle(c, s1);
    }
  }

  lemma EagerIdle(c: Config, s: Course)
    requires GoodConfig(c) && Good(c, s) && s.pipe.inputEof && s.sent == s.pipe.consumed
    ensures Drained(Served(c, s, EAGER))
  {
    hide Spawned, Send, Reach;
  }

  /** A command that is dying or dead is replaced, on the user's word if need be. */
  lemma EagerChange(c: Config, s: Course)
    requires GoodConfig(c) && Capacity(c) >= 4 && Good(c, s) && s.sent < s.pipe.consumed
    requires s.pipe.inputEof || Buffered(c, s) == c.bufferSize
    ensures var s1 := Kept(s, Tended(c, s.pipe, EAGER, Buffered(c, s)));
            var s2 := Kept(s1, Keyed(c, s1.pipe, EAGER));
            && Outstanding(c, s1) == Outstanding(c, s) == Outstanding(c, s2)
            && (if s1.pipe.status == Working then Steps(c, s1) <= Steps(c, s) else Steps(c, s2) < Steps(c, s))
  {
    hide LeftIn, Spawned, Reach, Capacity;
    var s1 := Kept(s, Tended(c, s.pipe, EAGER, Buffered(c, s)));
    SpawnedIs(c, s.pipe, 0);
    SpawnedIs(c, s1.pipe, 0);
  }

  lemma {:induction false} RunPrefix(c: Config, events: seq<Event>, more: seq<Event>, n: nat)
    requires GoodConfig(c) && n <= |events|
    ensures Run(c, events + more, n) == Run(c, events, n)
  {
    hide Passed;
    if n > 0 {
      RunPrefix(c, events, more, n - 1);
      assert (events + more)[n - 1] == events[n - 1];
    }
  }

  /** splitpipe never gets stuck: whatever has happened so far, the run can still end. */
  lemma {:induction false} CanEnd(c: Config, events: seq<Event>) returns (more: seq<Event>)
    requires GoodConfig(c) && Capacity(c) >= 4
    ensures Ends(c, events + more)
    decreases Outstanding(c, Run(c, events, |events|).0), Steps(c, Run(c, events, |events|).0)
  {
    hide Passed, Capacity, LeftIn;
    if Ends(c, events) {
      more := [];
      assert events + more == events;
      return;
    }
    var next := events + [EAGER];
    RunPrefix(c, events, [EAGER], |events|);
    GoodRun(c, events, |events|);
    EagerPass(c, Run(c, events, |events|).0);
    if Ends(c, next) {
      more := [EAGER];
    } else {
      var rest := CanEnd(c, next);
      more := [EAGER] + rest;
      assert events + more == next + rest;
    }
  }

  /** A non-empty input can be split if and only if a new volume has room for a byte of data. */
  lemma EndsIff(c: Config)
    requires GoodConfig(c) && c.input != []
    ensures (exists events: seq<Event> :: Ends(c, events)) <==> Capacity(c) >= 4
  {
    hide Capacity;
    if Capacity(c) >= 4 {
      var more := CanEnd(c, []);
      assert Ends(c, [] + more);
    } else {
      forall events: seq<Event>
        ensures !Ends(c, events)
      {
        BarrenRun(c, events, |events|);
      }
    }
  }
}
