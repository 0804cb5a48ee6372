/** The course of SplitpipeClass::go: a state machine over the events of its main loop, independent of
    the ring buffer and of the running checksum. */
module SplitCourse {
  import opened Bytes
  import opened Stretches
  import opened SessionLog
  import Md5

  datatype OutputStatus = Dead | Working | Dying

  /** What the outside world does in one pass of the main loop: whether the output command is seen
      to have exited, whether select reports anything, whether the user presses enter, whether input
      is readable and how many bytes a read returns, whether output is writable and what each write
      returns (0 stands for EAGAIN), and the clock. */
  datatype Event = Event(reaped: bool, ready: bool, enter: bool, readable: bool, read: nat,
                         writable: bool, writes: seq<nat>, now: u32)

  const TWO64: nat := 0x1_0000_0000_0000_0000

  /** Room left in a volume, in 64-bit arithmetic. */
  function LeftIn(volumeSize: nat, amount: nat): (n: nat)
  {
    (volumeSize - amount) % TWO64
  }

  lemma LeftAfter(volumeSize: nat, amount: nat, n: nat)
    requires volumeSize < TWO64 && amount < TWO64 && n <= LeftIn(volumeSize, amount)
    ensures LeftIn(volumeSize, (amount + n) % TWO64) == LeftIn(volumeSize, amount) - n
  {
    var d := volumeSize - amount;
    if d < 0 {
      assert d % TWO64 == d + TWO64;
    }
    if amount + n >= TWO64 {
      assert (amount + n) % TWO64 == amount + n - TWO64;
    }
  }

  function Min(a: nat, b: nat): (m: nat)
  {
    if a <= b then a else b
  }

  function Clamp(n: nat, low: nat, high: nat): (m: nat)
    requires low <= high
    ensures low <= m <= high
  {
    if n < low then low else if n > high then high else n
  }

  /** Length of the stretches every volume begins with. */
  function HeaderLength(uuid: seq<byte>, name: seq<byte>): (n: nat)
  {
    15 + |uuid| + (if name == [] then 0 else 3 + |name|)
  }

  lemma HeaderFits(uuid: seq<byte>, now: u32, name: seq<byte>, n: nat)
    requires |uuid| < 0x10000 && |name| < 0x10000
    ensures var ss := HeaderStretches(uuid, now, name, n);
            AllFit(ss) && |EncodeAll(ss, |ss|)| == HeaderLength(uuid, name)
  {
    var ss := HeaderStretches(uuid, now, name, n);
    hide Encode, U32, U16;
    EncodeStep(ss, 0);
    EncodeStep(ss, 1);
    EncodeStep(ss, 2);
    if name != [] {
      EncodeStep(ss, 3);
    }
    assert EncodeAll(ss, 0) == [];
    hide EncodeAll;
  }

  /** The parameters of a run; input is everything standard input will deliver. */
  datatype Config = Config(f: Md5.Compress, input: seq<byte>, uuid: seq<byte>, name: seq<byte>, bufferSize: nat,
                           volumeSize: nat, noPrompt: bool)

  predicate GoodConfig(c: Config)
  {
    |c.uuid| == 16 && |c.name| < 0x10000 && 0 < c.bufferSize && c.volumeSize < TWO64
  }

  /** The variables of the main loop; output is what the current output command has been given,
      volumes are the files of the commands before it. startedAtThree records that a stretch was started
      with exactly three bytes left in its volume, so with no room for data. */
  datatype Pipe = Pipe(consumed: nat, inputEof: bool, status: OutputStatus, left: nat, amount: nat, volumeNumber: nat,
                       waitingForUser: bool, firstVolume: bool, output: seq<byte>, volumes: seq<seq<byte>>,
                       startedAtThree: bool)

  function StartPipe(): (p: Pipe)
  {
    Pipe(0, false, Dead, 0, 0, 0, false, true, [], [], false)
  }

  /** A new output command that has been given the opening stretches. */
  function Spawned(c: Config, p: Pipe, now: u32): (r: Pipe)
    requires GoodConfig(c)
    ensures r.consumed == p.consumed && r.inputEof == p.inputEof && r.status == Working
  {
    var ss := HeaderStretches(c.uuid, now, c.name, p.volumeNumber);
    HeaderFits(c.uuid, now, c.name, p.volumeNumber);
    var stretches := EncodeAll(ss, |ss|);
    p.(output := stretches, amount := |stretches| % TWO64, volumeNumber := p.volumeNumber + 1, status := Working,
       waitingForUser := false, firstVolume := false)
  }

  /** Whether the buffer is more than half full, or all input is in it. */
  predicate WorthStarting(c: Config, p: Pipe, available: nat)
  {
    p.inputEof || 2 * available > c.bufferSize
  }

  /** Time for a new output command. */
  predicate Due(c: Config, p: Pipe, available: nat)
  {
    !p.waitingForUser && p.status == Dead && WorthStarting(c, p, available)
  }

  /** The start of a pass: a dead output command is replaced or the user is asked to change media, and
      a dying one may be seen to have exited. */
  function Tended(c: Config, p: Pipe, ev: Event, available: nat): (r: Pipe)
    requires GoodConfig(c)
    ensures r.consumed == p.consumed && r.inputEof == p.inputEof
  {
    if Due(c, p, available) then
      (if c.noPrompt || p.firstVolume then Spawned(c, p, ev.now) else p.(waitingForUser := true))
    else if p.status == Dying && ev.reaped then p.(status := Dead)
    else p
  }

  /** The size of a stretch started now. */
  function StretchSize(available: nat, leftInVolume: nat): (n: nat)
    requires leftInVolume >= 3
    ensures n <= available && n <= leftInVolume - 3 && n < 0x10000
    ensures n == 0 <==> available == 0 || leftInVolume == 3
  {
    Min(Min(0xffff, available), leftInVolume - 3)
  }

  /** No stretch is open and there is room for the header of one. */
  predicate Starting(c: Config, p: Pipe)
  {
    LeftIn(c.volumeSize, p.amount) >= 3 && p.left == 0
  }

  function Started(c: Config, p: Pipe, available: nat): (r: Pipe)
    requires Starting(c, p)
    ensures r.consumed == p.consumed && r.inputEof == p.inputEof
  {
    var left := LeftIn(c.volumeSize, p.amount);
    var size := StretchSize(available, left);
    p.(left := size, amount := (p.amount + 3) % TWO64, output := p.output + Header(DATA, size),
       startedAtThree := p.startedAtThree || left == 3)
  }

  /** A full volume with the running checksum and its end. */
  function ClosedVolume(c: Config, p: Pipe, sent: seq<byte>): (r: Pipe)
    ensures r.consumed == p.consumed && r.inputEof == p.inputEof
  {
    var checksum := Encode(Stretch(MD5_CHECKSUM, Md5.Digest(c.f, sent)));
    p.(status := Dying, amount := 0, output := [], volumes := p.volumes + [p.output + checksum + Encode(END)])
  }

  lemma ModUnique(x: nat, m: nat, q: nat, r: nat)
    requires x == q * m + r && r < m
    ensures x % m == r
  {
    var k, s := x / m, x % m;
    assert x == k * m + s && s < m;
    RestUnique(m, q, r, k, s);
  }

  lemma RestUnique(m: nat, q: nat, r: nat, k: nat, s: nat)
    requires q * m + r == k * m + s && r < m && s < m
    ensures r == s
  {
    if q > k {
      Above(m, q, r, k, s);
    } else if q < k {
      Above(m, k, s, q, r);
    }
  }

  lemma Above(m: nat, q: nat, r: nat, k: nat, s: nat)
    requires q > k && s < m
    ensures q * m + r > k * m + s
  {
    AtLeast(q - k, m);
    assert (q - k) * m == q * m - k * m;
  }

  lemma AtLeast(a: nat, m: nat)
    requires a >= 1
    ensures a * m >= m
  {
  }

  // ---------------------------------------------------------------- the machine

  /** The loop's variables and how many bytes of the input have been sent. */
  datatype Course = Course(pipe: Pipe, sent: nat)

  predicate Sane(c: Config, s: Course)
  {
    s.sent <= s.pipe.consumed <= |c.input|
  }

  /** Bytes buffered. */
  function Buffered(c: Config, s: Course): (n: nat)
    requires Sane(c, s)
  {
    s.pipe.consumed - s.sent
  }

  /** How many of the buffered bytes lie in one piece in a ring of bufferSize + 1 places. */
  function Reach(c: Config, s: Course): (n: nat)
    requires Sane(c, s)
    ensures n <= Buffered(c, s) && (s.sent < s.pipe.consumed ==> n > 0)
  {
    Min(Buffered(c, s), c.bufferSize + 1 - s.sent % (c.bufferSize + 1))
  }

  /** What one write may send. */
  function Sendable(c: Config, s: Course): (n: nat)
    requires Sane(c, s)
    ensures n <= Reach(c, s) && n <= LeftIn(c.volumeSize, s.pipe.amount) && n <= s.pipe.left
  {
    Min(Min(Reach(c, s), LeftIn(c.volumeSize, s.pipe.amount)), s.pipe.left)
  }

  function Wrote(c: Config, s: Course, n: nat): (r: Course)
    requires Sane(c, s) && n <= Sendable(c, s)
    ensures Sane(c, r) && r.pipe.consumed == s.pipe.consumed && r.pipe.inputEof == s.pipe.inputEof
    ensures r.sent == s.sent + n
  {
    var p := s.pipe;
    Course(p.(left := p.left - n, amount := (p.amount + n) % TWO64, output := p.output + c.input[s.sent..s.sent + n]),
           s.sent + n)
  }

  /** The inner loop from the w-th write on, total bytes having been written in this pass. */
  function Send(c: Config, s: Course, writes: seq<nat>, w: nat, total: nat, bytesRead: nat): (r: Course)
    requires Sane(c, s) && s.sent < s.pipe.consumed && w <= |writes|
    ensures Sane(c, r) && r.pipe.consumed == s.pipe.consumed && r.pipe.inputEof == s.pipe.inputEof
    decreases |writes| - w
  {
    hide Started, ClosedVolume, Sendable, Wrote, Clamp, Starting, Reach;
    if Starting(c, s.pipe) then Kept(s, Started(c, s.pipe, Reach(c, s)))
    else if Sendable(c, s) == 0 then Kept(s, ClosedVolume(c, s.pipe, c.input[..s.sent]))
    else if w == |writes| || writes[w] == 0 then s
    else
      var n := Clamp(writes[w], 1, Sendable(c, s));
      var s' := Wrote(c, s, n);
      if total + n >= bytesRead || s'.sent == s'.pipe.consumed then s'
      else Send(c, s', writes, w + 1, total + n, bytesRead)
  }

  function Kept(s: Course, p: Pipe): (r: Course)
  {
    s.(pipe := p)
  }

  /** What a read returns: nothing at the end of the input, else up to 100000 bytes for which there is room. */
  function ReadSize(c: Config, s: Course, read: nat): (n: nat)
    requires Sane(c, s) && Buffered(c, s) < c.bufferSize
    ensures n <= |c.input| - s.pipe.consumed && (n == 0 <==> s.pipe.consumed == |c.input|)
  {
    if s.pipe.consumed == |c.input| then 0
    else Clamp(read, 1, Min(Min(100000, c.bufferSize - Buffered(c, s)), |c.input| - s.pipe.consumed))
  }

  /** A key press brings the next output command online. */
  function Keyed(c: Config, p: Pipe, ev: Event): (r: Pipe)
    requires GoodConfig(c)
    ensures r.consumed == p.consumed && r.inputEof == p.inputEof
  {
    if p.waitingForUser && ev.enter then Spawned(c, p, ev.now) else p
  }

  /** Input is read if there is room for it; with the number of bytes read. */
  function Fed(c: Config, s: Course, ev: Event): (r: (Course, nat))
    requires Sane(c, s)
    ensures Sane(c, r.0)
  {
    if s.pipe.inputEof || Buffered(c, s) >= c.bufferSize || !ev.readable then (s, 0)
    else
      var n := ReadSize(c, s, ev.read);
      (Kept(s, s.pipe.(consumed := s.pipe.consumed + n, inputEof := n == 0)), n)
  }

  /** There is something to write and a command to write it to; only then select is asked about the output. */
  predicate Writing(s: Course)
  {
    s.pipe.status == Working && s.sent < s.pipe.consumed
  }

  /** The part of a pass from select on: a key press, a read, then writes. */
  function Served(c: Config, s: Course, ev: Event): (r: Course)
    requires GoodConfig(c) && Sane(c, s)
    ensures Sane(c, r)
  {
    hide Keyed, Fed, Send;
    var (s', n) := Fed(c, Kept(s, Keyed(c, s.pipe, ev)), ev);
    if Writing(s) && Writing(s') && ev.writable then Send(c, s', ev.writes, 0, 0, n) else s'
  }

  /** One pass of the main loop. */
  function Passed(c: Config, s: Course, ev: Event): (r: Course)
    requires GoodConfig(c) && Sane(c, s)
    ensures Sane(c, r)
  {
    hide Tended, Served;
    var s' := Kept(s, Tended(c, s.pipe, ev, Buffered(c, s)));
    if ev.ready then Served(c, s', ev) else s'
  }

  /** All input has been read and sent; the loop looks at this only after select has reported something. */
  predicate Drained(s: Course)
  {
    s.pipe.inputEof && s.sent == s.pipe.consumed
  }

  /** A run: the state after the first n events, and whether the loop has ended by then. */
  function Run(c: Config, events: seq<Event>, n: nat): (r: (Course, bool))
    requires GoodConfig(c) && n <= |events|
    ensures Sane(c, r.0)
  {
    hide Passed;
    if n == 0 then (Course(StartPipe(), 0), false)
    else
      var before := Run(c, events, n - 1);
      if before.1 then before
      else
        var s' := Passed(c, before.0, events[n - 1]);
        (s', events[n - 1].ready && Drained(s'))
  }

  lemma RunStart(c: Config, events: seq<Event>)
    requires GoodConfig(c)
    ensures Run(c, events, 0) == (Course(StartPipe(), 0), false)
  {
  }

  lemma RunStep(c: Config, events: seq<Event>, n: nat)
    requires GoodConfig(c) && n < |events| && !Run(c, events, n).1
    ensures var s := Passed(c, Run(c, events, n).0, events[n]);
            Run(c, events, n + 1) == (s, events[n].ready && Drained(s))
  {
    hide Passed;
  }

  predicate Ends(c: Config, events: seq<Event>)
    requires GoodConfig(c)
  {
    Run(c, events, |events|).1
  }

  /** On these events some stretch is started when exactly three bytes are left in its volume. */
  predicate StartsAtThree(c: Config, events: seq<Event>)
    requires GoodConfig(c)
  {
    Run(c, events, |events|).0.pipe.startedAtThree
  }

  /** The volumes of a run that has ended; the last is closed by checksum and SessionEOF. */
  function Volumes(c: Config, s: Course): (volumes: seq<seq<byte>>)
    requires Sane(c, s)
  {
    var checksum := Encode(Stretch(MD5_CHECKSUM, Md5.Digest(c.f, c.input[..s.sent])));
    var last := s.pipe.output + checksum + Encode(Stretch(SESSION_EOF, []));
    if s.pipe.status == Working then s.pipe.volumes + [last] else []
  }

  lemma {:induction false} RunEnded(c: Config, events: seq<Event>, n: nat, m: nat)
    requires GoodConfig(c) && n <= m <= |events| && (Run(c, events, n).1 || n == m)
    ensures Run(c, events, m) == Run(c, events, n)
  {
    if n < m {
      RunEnded(c, events, n, m - 1);
    }
  }
}
