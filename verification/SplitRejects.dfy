/** Runs of splitpipe in which a stretch is started with three bytes left in its volume. */
module SplitRejects {
  import opened Bytes
  import opened Stretches
  import opened SessionLog
  import opened SplitCourse
  import opened SplitFates
  import Md5

  /** A pass in which input can be read, one in which output can be written, and one in which the command
      is seen to have exited and select times out. */
  function Reads(n: nat): (ev: Event)
  {
    Event(false, true, false, true, n, false, [], 0)
  }

  const WRITES: Event := Event(false, true, false, false, 0, true, [0xffff], 0)
  const EXITS: Event := Event(true, false, false, false, 0, false, [], 0)

  // ---------------------------------------------------------------- a run from start to end

  /** The sizes that -b and -s give, in kilobytes; 2048 bytes of a volume are set aside. */
  predicate Configured(c: Config, bufferKilobytes: nat, volumeKilobytes: nat)
  {
    c.bufferSize == 1024 * bufferKilobytes && c.volumeSize == 1024 * volumeKilobytes - 2048
  }

  /** splitpipe -b 1 -s 3 -n, without a label. */
  function Small(f: Md5.Compress, input: seq<byte>, uuid: seq<byte>): (c: Config)
    requires |uuid| == 16
    ensures GoodConfig(c) && Configured(c, 1, 3) && Capacity(c) == 993
  {
    Config(f, input, uuid, [], 1024, 1024, true)
  }

  predicate At(s: Course, consumed: nat, inputEof: bool, status: OutputStatus, left: nat, amount: nat, sent: nat,
               three: bool, closed: nat)
  {
    var p := s.pipe;
    && p.consumed == consumed && p.inputEof == inputEof && p.status == status && p.left == left && p.amount == amount
    && p.startedAtThree == three && !p.waitingForUser && s.sent == sent && |p.volumes| == closed
  }

  lemma SmallSpawn(c: Config, p: Pipe)
    requires GoodConfig(c) && c.name == []
    ensures Spawned(c, p, 0).amount == 31
  {
    HeaderFits(c.uuid, 0, [], p.volumeNumber);
  }

  lemma SmallReads(c: Config, s: Course)
    requires GoodConfig(c) && Configured(c, 1, 3) && |c.input| == 988
    ensures At(s, 0, false, Dead, 0, 0, 0, false, 0) ==>
      At(Passed(c, s, Reads(987)), 987, false, Dead, 0, 0, 0, false, 0)
    ensures At(s, 987, false, Working, 0, 1021, 987, false, 0) ==>
      At(Passed(c, s, Reads(1)), 988, false, Working, 0, 1021, 987, false, 0)
    ensures At(s, 988, false, Dying, 0, 0, 987, true, 1) ==>
      At(Passed(c, s, Reads(1)), 988, true, Dying, 0, 0, 987, true, 1)
  {
    hide Spawned, Send;
  }

  /** A volume is opened, and a stretch with all that is buffered is started. */
  lemma SmallOpens(c: Config, s: Course)
    requires GoodConfig(c) && Configured(c, 1, 3) && |c.input| == 988 && c.name == [] && c.noPrompt
    ensures At(s, 987, false, Dead, 0, 0, 0, false, 0) ==>
      At(Passed(c, s, WRITES), 987, false, Working, 987, 34, 0, false, 0)
    ensures At(s, 988, true, Dead, 0, 0, 987, true, 1) ==>
      At(Passed(c, s, WRITES), 988, true, Working, 1, 34, 987, true, 1)
  {
    SmallSpawn(c, s.pipe);
    SpawnedIs(c, s.pipe, 0);
    hide Spawned, Header, ClosedVolume;
  }

  lemma SmallWrites(c: Config, s: Course)
    requires GoodConfig(c) && Configured(c, 1, 3) && |c.input| == 988
    ensures At(s, 987, false, Working, 987, 34, 0, false, 0) ==>
      At(Passed(c, s, WRITES), 987, false, Working, 0, 1021, 987, false, 0)
    ensures At(s, 988, true, Working, 1, 34, 987, true, 1) ==>
      At(Passed(c, s, WRITES), 988, true, Working, 0, 35, 988, true, 1)
  {
    hide Spawned, ClosedVolume, Started;
  }

  /** With three bytes left a stretch is started, and then the volume is full. */
  lemma SmallStarves(c: Config, s: Course)
    requires GoodConfig(c) && Configured(c, 1, 3) && |c.input| == 988
    ensures At(s, 988, false, Working, 0, 1021, 987, false, 0) ==>
      At(Passed(c, s, WRITES), 988, false, Working, 0, 1024, 987, true, 0)
    ensures At(s, 988, false, Working, 0, 1024, 987, true, 0) ==>
      At(Passed(c, s, WRITES), 988, false, Dying, 0, 0, 987, true, 1)
  {
    hide Spawned, Header, Encode, Md5.Digest;
  }

  lemma SmallExits(c: Config, s: Course)
    requires GoodConfig(c) && At(s, 988, true, Dying, 0, 0, 987, true, 1) && |c.input| == 988
    ensures At(Passed(c, s, EXITS), 988, true, Dead, 0, 0, 987, true, 1)
  {
    hide Spawned;
  }

  /** 987 bytes fill all but three bytes of a volume; one more is then to be sent. */
  function SmallEvents(): (events: seq<Event>)
    ensures |events| == 10
  {
    [Reads(987), WRITES, WRITES, Reads(1), WRITES, WRITES, Reads(1), EXITS, WRITES, WRITES]
  }

  /** A run of ten passes on any 988 bytes, from start to end: after 987 of them a stretch is started with
      three bytes left. */
  lemma SmallStartsAtThree(f: Md5.Compress, input: seq<byte>, uuid: seq<byte>)
    requires |input| == 988 && |uuid| == 16
    ensures var c := Small(f, input, uuid);
            Ends(c, SmallEvents()) && StartsAtThree(c, SmallEvents()) && |Volumes(c, Run(c, SmallEvents(), 10).0)| == 2
  {
    var c, events := Small(f, input, uuid), SmallEvents();
    hide Passed, Run, Encode, Md5.Digest;
    RunStart(c, events);
    RunStep(c, events, 0);
    SmallReads(c, Run(c, events, 0).0);
    RunStep(c, events, 1);
    SmallOpens(c, Run(c, events, 1).0);
    RunStep(c, events, 2);
    SmallWrites(c, Run(c, events, 2).0);
    RunStep(c, events, 3);
    SmallReads(c, Run(c, events, 3).0);
    RunStep(c, events, 4);
    SmallStarves(c, Run(c, events, 4).0);
    RunStep(c, events, 5);
    SmallStarves(c, Run(c, events, 5).0);
    RunStep(c, events, 6);
    SmallReads(c, Run(c, events, 6).0);
    RunStep(c, events, 7);
    SmallExits(c, Run(c, events, 7).0);
    RunStep(c, events, 8);
    SmallOpens(c, Run(c, events, 8).0);
    RunStep(c, events, 9);
    SmallWrites(c, Run(c, events, 9).0);
  }

  // ---------------------------------------------------------------- with any sizes, such a run

  /** On these events the loop is in state s and goes on. */
  predicate Reached(c: Config, events: seq<Event>, s: Course)
    requires GoodConfig(c)
  {
    Run(c, events, |events|) == (s, false)
  }

  lemma ReachedOn(c: Config, events: seq<Event>, s: Course, ev: Event)
    requires GoodConfig(c) && Reached(c, events, s) && Sane(c, s) && !Passed(c, s, ev).pipe.inputEof
    ensures Reached(c, events + [ev], Passed(c, s, ev))
  {
    hide Passed, Run;
    RunPrefix(c, events, [ev], |events|);
    RunStep(c, events + [ev], |events|);
  }

  /** Nothing has been sent; so many bytes are buffered. */
  predicate Filled(c: Config, s: Course, n: nat)
  {
    var p := s.pipe;
    && Sane(c, s) && p.consumed == n && s.sent == 0 && p.left == 0 && !p.inputEof && p.status == Dead
    && p.firstVolume && !p.waitingForUser
  }

  lemma FillPass(c: Config, s: Course, n: nat)
    requires GoodConfig(c) && Filled(c, s, n) && 2 * n <= c.bufferSize && n < |c.input|
    ensures Filled(c, Passed(c, s, Reads(1)), n + 1)
  {
    hide Spawned, Send;
  }

  /** The buffer is filled byte by byte until it is more than half full. */
  lemma {:induction false} Fill(c: Config, n: nat) returns (events: seq<Event>, s: Course)
    requires GoodConfig(c) && n <= c.bufferSize / 2 + 1 && n <= |c.input|
    ensures Reached(c, events, s) && Filled(c, s, n)
  {
    hide Passed;
    if n == 0 {
      events, s := [], Course(StartPipe(), 0);
      RunStart(c, events);
    } else {
      var before, s0 := Fill(c, n - 1);
      FillPass(c, s0, n - 1);
      ReachedOn(c, before, s0, Reads(1));
      events, s := before + [Reads(1)], Passed(c, s0, Reads(1));
    }
  }

  /** No stretch is open, and the volume has room for n more bytes. */
  predicate Between(c: Config, s: Course, consumed: nat, sent: nat, n: nat)
  {
    var p := s.pipe;
    && Good(c, s) && p.status == Working && p.left == 0 && !p.inputEof && p.consumed == consumed && s.sent == sent
    && LeftIn(c.volumeSize, p.amount) == n
  }

  const NOTHING: Event := Event(false, false, false, false, 0, false, [], 0)

  lemma OpenPass(c: Config, s: Course, n: nat)
    requires GoodConfig(c) && Filled(c, s, n) && n <= c.bufferSize < 2 * n
    ensures Between(c, Passed(c, s, NOTHING), n, 0, Capacity(c))
  {
    SpawnedIs(c, s.pipe, 0);
    hide Spawned, LeftIn, Capacity;
  }

  /** A byte count is read; nothing can be written while the buffer is empty. */
  lemma ReadPass(c: Config, s: Course, consumed: nat, n: nat, r: nat)
    requires GoodConfig(c) && Between(c, s, consumed, consumed, n) && 0 < r <= c.bufferSize && r <= 100000
    requires consumed + r <= |c.input|
    ensures Between(c, Passed(c, s, Reads(r)), consumed + r, consumed, n)
  {
    hide Spawned, Send, LeftIn;
  }

  lemma StartPass(c: Config, s: Course, consumed: nat, sent: nat, n: nat, m: nat)
    requires GoodConfig(c) && Between(c, s, consumed, sent, n) && sent < consumed && n >= 3
    requires m == StretchSize(Reach(c, s), n)
    ensures var r := Passed(c, s, WRITES);
            && Good(c, r) && r.pipe.status == Working && !r.pipe.inputEof
            && r.pipe.consumed == consumed && r.sent == sent
            && r.pipe.left == m && LeftIn(c.volumeSize, r.pipe.amount) == n - 3
            && r.pipe.startedAtThree == (s.pipe.startedAtThree || n == 3)
  {
    GoodPass(c, s, WRITES);
    LeftAfter(c.volumeSize, s.pipe.amount, 3);
    hide LeftIn, Reach, Header, Spawned;
  }

  lemma WritePass(c: Config, s: Course, consumed: nat, sent: nat, n: nat, m: nat)
    requires GoodConfig(c) && Good(c, s) && s.pipe.status == Working && !s.pipe.inputEof
    requires s.pipe.consumed == consumed && s.sent == sent && s.pipe.left == m && 0 < m <= 0xffff
    requires LeftIn(c.volumeSize, s.pipe.amount) == n
    ensures Between(c, Passed(c, s, WRITES), consumed, sent + m, n - m)
  {
    GoodPass(c, s, WRITES);
    LeftAfter(c.volumeSize, s.pipe.amount, m);
    hide LeftIn, Reach, Spawned, ClosedVolume, Started;
  }

  /** A whole stretch is sent. */
  lemma SendStretch(c: Config, events: seq<Event>, s: Course, consumed: nat, sent: nat, n: nat, m: nat)
    returns (more: seq<Event>, r: Course)
    requires GoodConfig(c) && Reached(c, events, s) && Between(c, s, consumed, sent, n) && sent < consumed && n > 3
    requires m == StretchSize(Reach(c, s), n)
    ensures Reached(c, more, r) && Between(c, r, consumed, sent + m, n - 3 - m)
  {
    hide Passed, LeftIn, Reach, Reached, StretchSize;
    StartPass(c, s, consumed, sent, n, m);
    ReachedOn(c, events, s, WRITES);
    var open := Passed(c, s, WRITES);
    WritePass(c, open, consumed, sent, n - 3, m);
    ReachedOn(c, events + [WRITES], open, WRITES);
    more, r := events + [WRITES] + [WRITES], Passed(c, open, WRITES);
  }

  /** What has been buffered before the volume was opened is sent, in stretches as large as possible. */
  lemma {:induction false} Drain(c: Config, events: seq<Event>, s: Course, consumed: nat, sent: nat, n: nat)
    returns (more: seq<Event>, r: Course, m: nat)
    requires GoodConfig(c) && Reached(c, events, s) && Between(c, s, consumed, sent, n)
    requires sent <= consumed <= c.bufferSize && n >= 4 * (consumed - sent) + 11
    ensures Reached(c, more, r) && Between(c, r, consumed, consumed, m) && 11 <= m <= n
    decreases consumed - sent
  {
    hide Reached, Between;
    if sent == consumed {
      return events, s, n;
    }
    ReachStraight(c, s, consumed, sent, n);
    var size := StretchSize(Reach(c, s), n);
    more, r := SendStretch(c, events, s, consumed, sent, n, size);
    more, r, m := Drain(c, more, r, consumed, sent + size, n - 3 - size);
  }

  lemma BetweenParts(c: Config, s: Course, consumed: nat, sent: nat, n: nat)
    requires Between(c, s, consumed, sent, n)
    ensures Sane(c, s) && sent <= consumed <= |c.input| && s.sent == sent && s.pipe.consumed == consumed
    ensures !s.pipe.inputEof
  {
  }

  /** As long as the ring has not wrapped, all that is buffered lies in one piece. */
  lemma ReachStraight(c: Config, s: Course, consumed: nat, sent: nat, n: nat)
    requires Between(c, s, consumed, sent, n) && sent < consumed <= c.bufferSize
    ensures Sane(c, s) && Reach(c, s) == consumed - sent
  {
    hide LeftIn, Good;
    BetweenParts(c, s, consumed, sent, n);
    assert s.sent % (c.bufferSize + 1) == s.sent;
  }

  /** r bytes are read and sent in one stretch, if the ring holds them in one piece. */
  lemma Round(c: Config, events: seq<Event>, s: Course, sent: nat, n: nat, r: nat)
    returns (more: seq<Event>, t: Course)
    requires GoodConfig(c) && Reached(c, events, s) && Between(c, s, sent, sent, n)
    requires 0 < r <= c.bufferSize && r <= 0xffff && r + 3 <= n && sent + r <= |c.input|
    requires r <= c.bufferSize + 1 - sent % (c.bufferSize + 1)
    ensures Reached(c, more, t) && Between(c, t, sent + r, sent + r, n - 3 - r)
  {
    ReadPass(c, s, sent, n, r);
    var read := Passed(c, s, Reads(r));
    RoundSize(c, read, sent, n, r);
    hide Passed, Reached, LeftIn, StretchSize, Reach;
    assert Sane(c, s) && !read.pipe.inputEof;
    ReachedOn(c, events, s, Reads(r));
    more, t := SendStretch(c, events + [Reads(r)], read, sent + r, sent, n, r);
  }

  lemma RoundSize(c: Config, s: Course, sent: nat, n: nat, r: nat)
    requires Between(c, s, sent + r, sent, n) && 0 < r <= 0xffff && r + 3 <= n
    requires r <= c.bufferSize + 1 - sent % (c.bufferSize + 1)
    ensures StretchSize(Reach(c, s), n) == r
  {
    hide LeftIn;
  }

  /** Byte by byte the volume is filled until there are three bytes left. */
  lemma {:induction false} CountDown(c: Config, events: seq<Event>, s: Course, sent: nat, n: nat)
    returns (more: seq<Event>, t: Course, end: nat)
    requires GoodConfig(c) && Reached(c, events, s) && Between(c, s, sent, sent, n) && n % 4 == 3
    requires sent + n / 4 < |c.input|
    ensures Reached(c, more, t) && Between(c, t, end, end, 3) && end == sent + n / 4
    decreases n
  {
    hide Reached, Between;
    if n == 3 {
      return events, s, sent;
    }
    OnePlace(c, sent);
    more, t := Round(c, events, s, sent, n, 1);
    more, t, end := CountDown(c, more, t, sent + 1, n - 4);
  }

  lemma OnePlace(c: Config, sent: nat)
    ensures 1 <= c.bufferSize + 1 - sent % (c.bufferSize + 1)
  {
  }

  // ---- the mark stays ----

  lemma {:induction false} MarkSend(c: Config, s: Course, writes: seq<nat>, w: nat, total: nat, bytesRead: nat)
    requires Sane(c, s) && s.sent < s.pipe.consumed && w <= |writes| && s.pipe.startedAtThree
    ensures Send(c, s, writes, w, total, bytesRead).pipe.startedAtThree
    decreases |writes| - w
  {
    hide Sendable, Clamp, LeftIn, Md5.Digest, Encode, Header, Reach;
    if !Starting(c, s.pipe) && Sendable(c, s) > 0 && w < |writes| && writes[w] > 0 {
      var n := Clamp(writes[w], 1, Sendable(c, s));
      var s' := Wrote(c, s, n);
      if total + n < bytesRead && s'.sent < s'.pipe.consumed {
        MarkSend(c, s', writes, w + 1, total + n, bytesRead);
      }
    }
  }

  lemma MarkPass(c: Config, s: Course, ev: Event)
    requires GoodConfig(c) && Sane(c, s) && s.pipe.startedAtThree
    ensures Passed(c, s, ev).pipe.startedAtThree
  {
    SpawnedIs(c, s.pipe, ev.now);
    var s1 := Kept(s, Tended(c, s.pipe, ev, Buffered(c, s)));
    SpawnedIs(c, s1.pipe, ev.now);
    hide Spawned, Send, LeftIn, ReadSize;
    var (s3, n) := Fed(c, Kept(s1, Keyed(c, s1.pipe, ev)), ev);
    if Writing(s3) {
      MarkSend(c, s3, ev.writes, 0, 0, n);
    }
  }

  lemma {:induction false} MarkRun(c: Config, events: seq<Event>, n: nat, m: nat)
    requires GoodConfig(c) && n <= m <= |events| && Run(c, events, n).0.pipe.startedAtThree
    ensures Run(c, events, m).0.pipe.startedAtThree
  {
    hide Passed;
    if n < m {
      MarkRun(c, events, n, m - 1);
      var before := Run(c, events, m - 1);
      if !before.1 {
        MarkPass(c, before.0, events[m - 1]);
      }
    }
  }

  // ---- the runs ----

  /** A volume is opened with the buffer just more than half full, and what is buffered is sent. */
  lemma Opened(c: Config) returns (events: seq<Event>, s: Course, sent: nat, n: nat)
    requires GoodConfig(c) && c.bufferSize >= 8 && Capacity(c) >= 2 * c.bufferSize + 15 && |c.input| >= Capacity(c)
    ensures Reached(c, events, s) && Between(c, s, sent, sent, n)
    ensures sent == c.bufferSize / 2 + 1 && 11 <= n <= Capacity(c)
  {
    hide Passed, Reached, Between, Filled, Capacity;
    sent := c.bufferSize / 2 + 1;
    events, s := Fill(c, sent);
    OpenPass(c, s, sent);
    FilledSane(c, s, sent);
    BetweenParts(c, Passed(c, s, NOTHING), sent, 0, Capacity(c));
    ReachedOn(c, events, s, NOTHING);
    events, s, n := Drain(c, events + [NOTHING], Passed(c, s, NOTHING), sent, 0, Capacity(c));
  }

  lemma FilledSane(c: Config, s: Course, n: nat)
    requires Filled(c, s, n)
    ensures Sane(c, s)
  {
  }

  /** A few bytes more, and the room that is left is three and a multiple of four. */
  lemma Aligned(c: Config, events: seq<Event>, s: Course, sent: nat, n: nat)
    returns (more: seq<Event>, t: Course, end: nat, m: nat)
    requires GoodConfig(c) && Reached(c, events, s) && Between(c, s, sent, sent, n) && n >= 11
    requires c.bufferSize >= 8 && sent == c.bufferSize / 2 + 1 && sent + 4 <= |c.input|
    ensures Reached(c, more, t) && Between(c, t, end, end, m) && end <= sent + 4 && m <= n && m % 4 == 3
  {
    hide Reached, Between;
    var r := if (n + 2) % 4 == 0 then 4 else (n + 2) % 4;
    assert sent % (c.bufferSize + 1) == sent;
    end, m := sent + r, n - 3 - r;
    more, t := Round(c, events, s, sent, n, r);
  }

  /** The next byte starts a stretch. */
  lemma Starve(c: Config, events: seq<Event>, s: Course, sent: nat) returns (more: seq<Event>)
    requires GoodConfig(c) && Reached(c, events, s) && Between(c, s, sent, sent, 3) && sent < |c.input|
    ensures StartsAtThree(c, more)
  {
    ReadPass(c, s, sent, 3, 1);
    var read := Passed(c, s, Reads(1));
    BetweenParts(c, s, sent, sent, 3);
    BetweenParts(c, read, sent + 1, sent, 3);
    StartPass(c, read, sent + 1, sent, 3, StretchSize(Reach(c, read), 3));
    hide Passed, Between, LeftIn, StretchSize, Reach, Good;
    ReachedOn(c, events, s, Reads(1));
    ReachedOn(c, events + [Reads(1)], read, WRITES);
    more := events + [Reads(1)] + [WRITES];
  }

  /** Whatever the sizes of buffer and volume, if the volume has room for twice the buffer, and whatever the
      input, if it fills a volume: there is a run from start to end in which a stretch is started with three
      bytes left. */
  lemma AnySizesStartAtThree(c: Config) returns (events: seq<Event>)
    requires GoodConfig(c) && c.bufferSize >= 8 && Capacity(c) >= 2 * c.bufferSize + 15 && |c.input| >= Capacity(c)
    ensures Ends(c, events) && StartsAtThree(c, events)
  {
    hide Passed, Reached, Between, Run, Capacity;
    var before, s, sent, n := Opened(c);
    before, s, sent, n := Aligned(c, before, s, sent, n);
    before, s, sent := CountDown(c, before, s, sent, n);
    before := Starve(c, before, s, sent);
    var more := CanEnd(c, before);
    RunPrefix(c, before, more, |before|);
    MarkRun(c, before + more, |before|, |before + more|);
    events := before + more;
  }
}
