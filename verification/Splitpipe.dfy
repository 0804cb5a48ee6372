/** SplitpipeClass::go: input is buffered in a ring and cut into volumes of stretches. */
module Splitpipe {
  import opened Bytes
  import opened Stretches
  import opened SessionLog
  import opened RingBuffers
  import opened SplitCourse
  import Md5

  /** The bytes in the current volume: complete stretches, then the open Data stretch. */
  ghost predicate Output(output: seq<byte>, log: Log, leftInStretch: nat)
  {
    && AllFit(log.cur) && |log.part| + leftInStretch < 0x10000
    && (leftInStretch == 0 ==> log.part == [])
    && output == EncodeAll(log.cur, |log.cur|)
                 + (if leftInStretch == 0 then [] else Header(DATA, |log.part| + leftInStretch) + log.part)
  }

  /** The data of complete stretches: everything fed to the checksum but the open stretch's part. */
  ghost predicate Complete(fed: seq<byte>, part: seq<byte>, data: seq<byte>)
  {
    fed == data + part
  }

  /** joinpipe's view of everything written is in step with the writer. */
  ghost predicate Format(f: Md5.Compress, j0: Joiner, log: Log, output: seq<byte>, volumes: seq<seq<byte>>,
                         leftInStretch: nat, uuid: seq<byte>, volumeNumber: nat, data: seq<byte>, fed: seq<byte>,
                         empty: bool)
  {
    && LogOk(f, j0, log) && log.volumes == volumes && Output(output, log, leftInStretch)
    && Complete(fed, log.part, data)
    && InStep(Reader(f, j0, log), uuid, volumeNumber, data, empty)
  }

  lemma FormatOpen(f: Md5.Compress, j0: Joiner, log: Log, volumes: seq<seq<byte>>, uuid: seq<byte>, name: seq<byte>,
                   now: u32, n: nat, data: seq<byte>, fed: seq<byte>, empty: bool) returns (log': Log)
    requires Format(f, j0, log, [], volumes, 0, uuid, n, data, fed, empty) && log.cur == []
    requires n < 0x10000 && 0 < |uuid| < 0x10000 && |name| < 0x10000
    ensures var ss := HeaderStretches(uuid, now, name, n);
            AllFit(ss) && Format(f, j0, log', EncodeAll(ss, |ss|), volumes, 0, uuid, n + 1, data, fed, empty)
  {
    HeaderFits(uuid, now, name, n);
    hide LogOk, Reader, InStep, HeaderStretches, EncodeAll, AllFit;
    log' := OpenVolume(f, j0, log, uuid, now, name, n, data, empty);
    assert EncodeAll(log'.cur, |log'.cur|) + [] == EncodeAll(log'.cur, |log'.cur|);
  }

  /** A Data stretch is started; with no room for data it is complete at once, and empty. */
  lemma FormatStart(f: Md5.Compress, j0: Joiner, log: Log, output: seq<byte>, volumes: seq<seq<byte>>, uuid: seq<byte>,
                    n: nat, data: seq<byte>, fed: seq<byte>, empty: bool, size: u16) returns (log': Log)
    requires Format(f, j0, log, output, volumes, 0, uuid, n, data, fed, empty)
    ensures Format(f, j0, log', output + Header(DATA, size), volumes, size, uuid, n, data, fed, empty || size == 0)
  {
    hide LogOk, Reader, InStep, EncodeAll, AllFit, Header;
    assert EncodeAll(log.cur, |log.cur|) + [] == EncodeAll(log.cur, |log.cur|);
    if size == 0 {
      var s := Stretch(DATA, []);
      log' := log.(cur := log.cur + [s], part := []);
      assert data + [] == data;
      AddData(f, j0, log, [], log', uuid, n, data, empty);
      assert Encode(s) == Header(DATA, 0) + [] == Header(DATA, 0);
      LogFits(f, j0, log');
      assert EncodeAll(log'.cur, |log'.cur|) + [] == EncodeAll(log'.cur, |log'.cur|);
    } else {
      log' := log;
      assert Header(DATA, size) + [] == Header(DATA, size);
    }
  }

  lemma LogFits(f: Md5.Compress, j0: Joiner, log: Log)
    requires LogOk(f, j0, log)
    ensures AllFit(log.cur)
  {
  }

  lemma PartOnly(f: Md5.Compress, j0: Joiner, log: Log, part: seq<byte>)
    ensures LogOk(f, j0, log.(part := part)) == LogOk(f, j0, log)
    ensures Reader(f, j0, log.(part := part)) == Reader(f, j0, log)
  {
  }

  /** Bytes of the open stretch are written; the last one completes it. */
  lemma FormatWrite(f: Md5.Compress, j0: Joiner, log: Log, output: seq<byte>, volumes: seq<seq<byte>>, left: nat,
                    uuid: seq<byte>, n: nat, data: seq<byte>, fed: seq<byte>, empty: bool, bytes: seq<byte>)
    returns (log': Log, data': seq<byte>)
    requires Format(f, j0, log, output, volumes, left, uuid, n, data, fed, empty) && 0 < |bytes| <= left
    ensures Format(f, j0, log', output + bytes, volumes, left - |bytes|, uuid, n, data', fed + bytes, empty)
  {
    hide LogOk, Reader, InStep, EncodeAll, AllFit;
    var part, size := log.part + bytes, |log.part| + left;
    assert fed + bytes == data + part;
    assert part != [] by { assert |part| >= |bytes|; }
    var written := EncodeAll(log.cur, |log.cur|);
    assert output + bytes == written + (Header(DATA, size) + part);
    if |bytes| < left {
      log', data' := log.(part := part), data;
      PartOnly(f, j0, log, part);
    } else {
      log', data' := log.(cur := log.cur + [Stretch(DATA, part)], part := []), data + part;
      AddData(f, j0, log, part, log', uuid, n, data, empty);
      LogFits(f, j0, log');
      assert Encode(Stretch(DATA, part)) == Header(DATA, size) + part;
      assert data' + [] == data';
      assert EncodeAll(log'.cur, |log'.cur|) + [] == EncodeAll(log'.cur, |log'.cur|);
    }
    assert Output(output + bytes, log', left - |bytes|);
    assert Complete(fed + bytes, log'.part, data');
    assert InStep(Reader(f, j0, log'), uuid, n, data', empty);
  }

  /** The volume is closed with the checksum and VolumeEOF. */
  lemma FormatClose(f: Md5.Compress, j0: Joiner, log: Log, output: seq<byte>, volumes: seq<seq<byte>>, uuid: seq<byte>,
                    n: nat, data: seq<byte>, fed: seq<byte>, empty: bool) returns (log': Log)
    requires Format(f, j0, log, output, volumes, 0, uuid, n, data, fed, empty)
    ensures var volume := output + Encode(Stretch(MD5_CHECKSUM, Md5.Digest(f, fed))) + Encode(END);
            Format(f, j0, log', [], volumes + [volume], 0, uuid, n, data, fed, empty) && log'.cur == []
  {
    var checksum := Stretch(MD5_CHECKSUM, Md5.Digest(f, fed));
    assert data + [] == data;
    var log2 := log.(cur := log.cur + [checksum]);
    var volume := output + Encode(checksum) + Encode(END);
    EmptyEncode();
    hide LogOk, Reader, InStep, EncodeAll, Encode, Md5.Digest;
    assert EncodeAll(log.cur, |log.cur|) + [] == EncodeAll(log.cur, |log.cur|);
    AddChecksum(f, j0, log, log2, uuid, n, data, empty);
    LogFits(f, j0, log2);
    log' := Log(log2.bodies + [log2.cur], log2.volumes + [volume], [], []);
    hide AllFit;
    SessionLog.CloseVolume(f, j0, log2, volume, log');
  }

  lemma EmptyEncode()
    ensures AllFit([]) && EncodeAll([], 0) == []
  {
  }

  /** The session is ended with the checksum and SessionEOF. */
  lemma FormatFinish(f: Md5.Compress, j0: Joiner, log: Log, output: seq<byte>, volumes: seq<seq<byte>>, uuid: seq<byte>,
                     n: nat, data: seq<byte>, fed: seq<byte>, empty: bool) returns (log': Log)
    requires Format(f, j0, log, output, volumes, 0, uuid, n, data, fed, empty)
    ensures LogOk(f, j0, log') && log'.volumes == volumes && AllFit(log'.cur)
    ensures EncodeAll(log'.cur, |log'.cur|)
         == output + Encode(Stretch(MD5_CHECKSUM, Md5.Digest(f, fed))) + Encode(Stretch(SESSION_EOF, []))
    ensures var j := Reader(f, j0, log'); if empty then j.status.Failed? else j.status.Finished? && j.out == fed
  {
    var checksum := Stretch(MD5_CHECKSUM, Md5.Digest(f, fed));
    assert data + [] == data;
    var log2 := log.(cur := log.cur + [checksum]);
    hide LogOk, Reader, InStep, EncodeAll, Encode, Md5.Digest, AllFit;
    assert EncodeAll(log.cur, |log.cur|) + [] == EncodeAll(log.cur, |log.cur|);
    AddChecksum(f, j0, log, log2, uuid, n, data, empty);
    log' := log2.(cur := log2.cur + [Stretch(SESSION_EOF, [])]);
    AddSessionEof(f, j0, log2, log', uuid, n, data, empty);
    LogFits(f, j0, log');
  }

  /** What the proof remembers: the stretches, the data of complete ones, and whether one was empty. */
  datatype Trace = Trace(j0: Joiner, log: Log, data: seq<byte>, empty: bool)

  /** Input read = data sent + data buffered. */
  predicate ReadSent(input: seq<byte>, consumed: nat, inputEof: bool, sent: seq<byte>, queue: seq<byte>)
  {
    && consumed <= |input| && (inputEof ==> consumed == |input|)
    && sent + queue == input[..consumed]
  }

  /** The rest of the open stretch is buffered in one piece and fits the volume: no stretch is cut
      by the end of a volume or of the input. */
  predicate StretchFits(c: Config, p: Pipe, queue: seq<byte>, contiguous: nat)
  {
    && p.amount < TWO64 && p.left < 0x10000 && p.left <= LeftIn(c.volumeSize, p.amount)
    && (p.left > 0 ==> p.status == Working && queue != [] && p.left <= contiguous)
  }

  /** Volumes stay within their size, if that covers the opening stretches. */
  predicate Sized(c: Config, p: Pipe)
  {
    && (p.status != Working ==> p.output == [])
    && (p.waitingForUser ==> p.status == Dead)
    && (HeaderLength(c.uuid, c.name) <= c.volumeSize ==>
          && (p.status == Working ==> |p.output| == p.amount <= c.volumeSize)
          && forall k :: 0 <= k < |p.volumes| ==> |p.volumes[k]| <= c.volumeSize + 22)
  }

  /** As long as volume numbers do not wrap, joinpipe is in step with the writer. */
  ghost predicate Formatted(c: Config, p: Pipe, t: Trace, sent: seq<byte>)
  {
    && |p.volumes| + (if p.status == Working then 1 else 0) == p.volumeNumber
    && (p.volumeNumber <= 0x10000 ==>
          && Format(c.f, t.j0, t.log, p.output, p.volumes, p.left, c.uuid, p.volumeNumber, t.data, sent, t.empty)
          && (p.status != Working ==> t.log.cur == [] && p.left == 0 && p.output == []))
  }

  /** A drained buffer has been drained to a living output command. */
  predicate Sunk(p: Pipe, sent: seq<byte>, queue: seq<byte>)
  {
    queue == [] && sent != [] ==> p.status == Working
  }

  /** The loop invariant, given what has been sent and what is buffered. */
  ghost predicate Inv(c: Config, p: Pipe, t: Trace, sent: seq<byte>, queue: seq<byte>, contiguous: nat)
  {
    && GoodConfig(c) && ReadSent(c.input, p.consumed, p.inputEof, sent, queue) && StretchFits(c, p, queue, contiguous)
    && Sized(c, p) && Formatted(c, p, t, sent) && Sunk(p, sent, queue) && t.empty == p.startedAtThree
  }

  function StartTrace(buffer0: (byte, byte)): (t: Trace)
  {
    Trace(Joiner([], 0, buffer0, [], Running), EMPTY, [], false)
  }

  lemma StartInv(c: Config, buffer0: (byte, byte), contiguous: nat)
    requires GoodConfig(c)
    ensures Inv(c, StartPipe(), StartTrace(buffer0), [], [], contiguous)
  {
    var t := StartTrace(buffer0);
    EmptyOk(c.f, t.j0);
    EmptyEncode();
    hide LogOk, Reader;
  }

  // ---------------------------------------------------------------- opening a volume

  /** spawnOutputThread and outputPerVolumeStretches. */
  method Spawn(c: Config, p: Pipe, now: u32, ghost t: Trace, ghost sent: seq<byte>, ghost queue: seq<byte>,
               ghost contiguous: nat)
    returns (p': Pipe, ghost t': Trace)
    requires Inv(c, p, t, sent, queue, contiguous) && p.status == Dead
    ensures Inv(c, p', t', sent, queue, contiguous) && t'.j0 == t.j0
    ensures GoodConfig(c) && p' == Spawned(c, p, now)
  {
    hide Format, HeaderStretches, EncodeAll, AllFit, LeftIn;
    var ss := HeaderStretches(c.uuid, now, c.name, p.volumeNumber);
    HeaderFits(c.uuid, now, c.name, p.volumeNumber);
    var stretches := EncodeAll(ss, |ss|);
    t' := t;
    if p.volumeNumber < 0x10000 {
      var log' := FormatOpen(c.f, t.j0, t.log, p.volumes, c.uuid, c.name, now, p.volumeNumber, t.data, sent, t.empty);
      t' := t.(log := log');
    }
    p' := p.(output := stretches, amount := |stretches| % TWO64, volumeNumber := p.volumeNumber + 1, status := Working,
             waitingForUser := false, firstVolume := false);
  }

  // ---------------------------------------------------------------- sending data out

  lemma InvStart(c: Config, p: Pipe, t: Trace, sent: seq<byte>, queue: seq<byte>, contiguous: nat, size: u16, p': Pipe)
    returns (t': Trace)
    requires Inv(c, p, t, sent, queue, contiguous) && p.status == Working && p.left == 0 && queue != []
    requires 3 + size <= LeftIn(c.volumeSize, p.amount) && size <= contiguous
    requires p' == p.(left := size, amount := (p.amount + 3) % TWO64, output := p.output + Header(DATA, size),
                      startedAtThree := p.startedAtThree || size == 0)
    ensures Inv(c, p', t', sent, queue, contiguous) && t'.j0 == t.j0 && t'.empty == (t.empty || size == 0)
  {
    hide Format, Header, ReadSent, HeaderLength, Formatted;
    LeftAfter(c.volumeSize, p.amount, 3);
    StartSized(c, p, p');
    t' := FormattedStart(c, p, t, sent, size, p');
    hide Sized, LeftIn;
  }

  lemma FormattedStart(c: Config, p: Pipe, t: Trace, sent: seq<byte>, size: u16, p': Pipe) returns (t': Trace)
    requires Formatted(c, p, t, sent) && p.status == Working && p.left == 0
    requires p' == p.(left := size, amount := p'.amount, output := p.output + Header(DATA, size),
                      startedAtThree := p'.startedAtThree)
    ensures Formatted(c, p', t', sent) && t'.j0 == t.j0 && t'.empty == (t.empty || size == 0)
  {
    hide Format, Header;
    t' := t.(empty := t.empty || size == 0);
    if p.volumeNumber <= 0x10000 {
      var log' := FormatStart(c.f, t.j0, t.log, p.output, p.volumes, c.uuid, p.volumeNumber, t.data, sent, t.empty,
                              size);
      t' := t'.(log := log');
    }
  }

  lemma StartSized(c: Config, p: Pipe, p': Pipe)
    requires GoodConfig(c) && Sized(c, p) && p.status == Working && 3 <= LeftIn(c.volumeSize, p.amount)
    requires p.amount < TWO64
    requires |p'.output| == |p.output| + 3 && p'.amount == (p.amount + 3) % TWO64 && p'.volumes == p.volumes
    requires p'.status == Working && !p'.waitingForUser
    ensures Sized(c, p')
  {
    hide HeaderLength;
  }

  lemma InvWrite(c: Config, p: Pipe, t: Trace, sent: seq<byte>, queue: seq<byte>, contiguous: nat, n: nat,
                 contiguous': nat, p': Pipe)
    returns (t': Trace)
    requires Inv(c, p, t, sent, queue, contiguous) && p.status == Working && 0 < n <= p.left && n <= |queue|
    requires n < contiguous ==> contiguous' == contiguous - n
    requires p' == p.(left := p.left - n, amount := (p.amount + n) % TWO64, output := p.output + queue[..n])
    requires contiguous <= |queue|
    ensures Inv(c, p', t', sent + queue[..n], queue[n..], contiguous') && t'.j0 == t.j0 && t'.empty == t.empty
  {
    hide Format, HeaderLength, Formatted;
    LeftAfter(c.volumeSize, p.amount, n);
    WriteSized(c, p, p', n);
    assert sent + queue[..n] + queue[n..] == sent + queue;
    t' := FormattedWrite(c, p, t, sent, queue[..n], p');
    hide Sized, LeftIn, ReadSent;
  }

  lemma FormattedWrite(c: Config, p: Pipe, t: Trace, sent: seq<byte>, bytes: seq<byte>, p': Pipe) returns (t': Trace)
    requires Formatted(c, p, t, sent) && p.status == Working && 0 < |bytes| <= p.left
    requires p' == p.(left := p.left - |bytes|, amount := p'.amount, output := p.output + bytes)
    ensures Formatted(c, p', t', sent + bytes) && t'.j0 == t.j0 && t'.empty == t.empty
  {
    hide Format;
    t' := t;
    if p.volumeNumber <= 0x10000 {
      var log', data' := FormatWrite(c.f, t.j0, t.log, p.output, p.volumes, p.left, c.uuid, p.volumeNumber, t.data,
                                     sent, t.empty, bytes);
      t' := t.(log := log', data := data');
    }
  }

  lemma WriteSized(c: Config, p: Pipe, p': Pipe, n: nat)
    requires GoodConfig(c) && Sized(c, p) && p.status == Working && n <= LeftIn(c.volumeSize, p.amount)
    requires p.amount < TWO64
    requires |p'.output| == |p.output| + n && p'.amount == (p.amount + n) % TWO64 && p'.volumes == p.volumes
    requires p'.status == Working && !p'.waitingForUser
    ensures Sized(c, p')
  {
    hide HeaderLength;
  }

  /** outputChecksum: the stretch with the running checksum. */
  method Checksum(md5: Md5.MD5Summer) returns (bytes: seq<byte>)
    requires md5.Valid()
    ensures |Md5.Digest(md5.f, md5.fed)| == 16 && bytes == Encode(Stretch(MD5_CHECKSUM, Md5.Digest(md5.f, md5.fed)))
    ensures |bytes| == 19
  {
    hide Md5.Digest;
    var digest := md5.Get();
    bytes := Encode(Stretch(MD5_CHECKSUM, digest));
  }

  lemma InvClose(c: Config, p: Pipe, t: Trace, sent: seq<byte>, queue: seq<byte>, contiguous: nat, checksum: seq<byte>,
                 p': Pipe)
    returns (t': Trace)
    requires Inv(c, p, t, sent, queue, contiguous) && p.status == Working && p.left == 0 && queue != []
    requires |Md5.Digest(c.f, sent)| == 16 && checksum == Encode(Stretch(MD5_CHECKSUM, Md5.Digest(c.f, sent)))
    requires p' == p.(status := Dying, amount := 0, output := [],
                      volumes := p.volumes + [p.output + checksum + Encode(END)])
    ensures Inv(c, p', t', sent, queue, contiguous) && t'.j0 == t.j0 && t'.empty == t.empty
  {
    hide Format, ReadSent, Md5.Digest, LeftIn, HeaderLength;
    assert |checksum| == 19 && |Encode(END)| == 3;
    hide Encode;
    t' := t;
    if p.volumeNumber <= 0x10000 {
      var log' := FormatClose(c.f, t.j0, t.log, p.output, p.volumes, c.uuid, p.volumeNumber, t.data, sent, t.empty);
      t' := t.(log := log');
    }
  }

  /** The queue's front in the ring after that many bytes. */
  predicate AtFront(c: Config, front: nat, sent: nat)
  {
    front == sent % (c.bufferSize + 1)
  }

  lemma FrontAtStart(c: Config)
    ensures AtFront(c, 0, 0)
  {
  }

  lemma FrontMoves(c: Config, front: nat, sent: nat, n: nat)
    requires AtFront(c, front, sent)
    ensures AtFront(c, (front + n) % (c.bufferSize + 1), sent + n)
  {
    var m := c.bufferSize + 1;
    var q, k := sent / m, (front + n) / m;
    var r := (front + n) % m;
    assert sent + n == q * m + (k * m + r) == (q + k) * m + r;
    ModUnique(sent + n, m, q + k, r);
  }

  /** The ring buffer and the checksum are separate, and agree with the loop's variables. */
  ghost predicate State(c: Config, p: Pipe, t: Trace, rb: RingBuffer, md5: Md5.MD5Summer)
    reads rb, rb.vector, md5, md5.buffer
  {
    && rb.Valid() && md5.Valid() && md5.f == c.f && rb.vector != md5.buffer && rb.publicSize == c.bufferSize
    && AtFront(c, rb.Front(), |md5.fed|) && Inv(c, p, t, md5.fed, rb.Queue(), rb.Contiguous())
  }

  /** What has been sent and what is buffered are parts of the input. */
  lemma InvCourse(c: Config, p: Pipe, t: Trace, sent: seq<byte>, queue: seq<byte>, contiguous: nat)
    requires Inv(c, p, t, sent, queue, contiguous)
    ensures Sane(c, Course(p, |sent|))
    ensures sent == c.input[..|sent|] && queue == c.input[|sent|..p.consumed] && |queue| == p.consumed - |sent|
  {
    hide Formatted, Sized, LeftIn;
    var all := c.input[..p.consumed];
    assert sent == all[..|sent|] && queue == all[|sent|..];
  }

  /** The machine's view of a state. */
  ghost function View(p: Pipe, md5: Md5.MD5Summer): (s: Course)
    reads md5
  {
    Course(p, |md5.fed|)
  }

  lemma Moved(sent: seq<byte>, queue: seq<byte>, buf: seq<byte>, n: nat)
    requires n <= |buf| && buf <= queue
    ensures buf[..n] == queue[..n] && sent + queue[..n] + queue[n..] == sent + queue
  {
  }

  /** What one write of a piece of the open stretch does. */
  method WritePiece(c: Config, p: Pipe, rb: RingBuffer, md5: Md5.MD5Summer, buf: seq<byte>, n: nat, ghost t: Trace)
    returns (p': Pipe, ghost t': Trace)
    requires State(c, p, t, rb, md5) && p.status == Working && rb.Queue() != []
    requires buf <= rb.Queue() && |buf| == rb.Contiguous() && 0 < n <= p.left && n <= |buf|
    modifies rb`rpos, md5, md5.buffer
    ensures State(c, p', t', rb, md5) && t'.j0 == t.j0 && t'.empty == t.empty
    ensures p' == p.(left := p.left - n, amount := (p.amount + n) % TWO64, output := p.output + buf[..n])
    ensures rb.Valid() && rb.Available() == p'.consumed - |md5.fed| && |md5.fed| == old(|md5.fed|) + n
    ensures md5.fed == old(md5.fed) + buf[..n] && md5.fed + rb.Queue() == old(md5.fed + rb.Queue())
  {
    hide Inv, AtFront, Md5.Absorbed, Md5.Totals, Between;
    ghost var sent, queue, contiguous := md5.fed, rb.Queue(), rb.Contiguous();
    Moved(sent, queue, buf, n);
    p' := p.(left := p.left - n, amount := (p.amount + n) % TWO64, output := p.output + buf[..n]);
    PieceShort(c, p, t, sent, queue, contiguous);
    FrontMoves(c, rb.Front(), |sent|, n);
    hide LeftIn;
    md5.Feed(buf[..n]);
    rb.Advance(n);
    t' := InvWrite(c, p, t, sent, queue, contiguous, n, rb.Contiguous(), p');
    InvCourse(c, p', t', md5.fed, rb.Queue(), rb.Contiguous());
  }

  lemma PieceShort(c: Config, p: Pipe, t: Trace, sent: seq<byte>, queue: seq<byte>, contiguous: nat)
    requires Inv(c, p, t, sent, queue, contiguous) && p.status == Working
    ensures p.left < 0x10000
  {
  }

  /** A stretch is started with the size the buffer and the volume allow. */
  method StartStretch(c: Config, p: Pipe, rb: RingBuffer, md5: Md5.MD5Summer, available: nat, ghost t: Trace)
    returns (p': Pipe, ghost t': Trace)
    requires State(c, p, t, rb, md5) && p.status == Working && rb.Queue() != []
    requires Starting(c, p) && available == rb.Contiguous()
    ensures State(c, p', t', rb, md5) && t'.j0 == t.j0
    ensures p' == Started(c, p, available)
  {
    hide Inv, AtFront, Md5.Absorbed, Md5.Totals, Between, LeftIn;
    var leftInVolume := LeftIn(c.volumeSize, p.amount);
    var size := StretchSize(available, leftInVolume);
    p' := p.(left := size, amount := (p.amount + 3) % TWO64, output := p.output + Header(DATA, size),
             startedAtThree := p.startedAtThree || leftInVolume == 3);
    t' := InvStart(c, p, t, md5.fed, rb.Queue(), rb.Contiguous(), size, p');
  }

  /** A full volume is closed with the running checksum. */
  method EndVolume(c: Config, p: Pipe, rb: RingBuffer, md5: Md5.MD5Summer, ghost t: Trace)
    returns (p': Pipe, ghost t': Trace)
    requires State(c, p, t, rb, md5) && p.status == Working && p.left == 0 && rb.Queue() != []
    ensures State(c, p', t', rb, md5) && t'.j0 == t.j0
    ensures p' == ClosedVolume(c, p, md5.fed)
  {
    hide Inv, AtFront, Md5.Absorbed, Md5.Totals, Between, Encode, Md5.Digest;
    var checksum := Checksum(md5);
    p' := p.(status := Dying, amount := 0, output := [], volumes := p.volumes + [p.output + checksum + Encode(END)]);
    t' := InvClose(c, p, t, md5.fed, rb.Queue(), rb.Contiguous(), checksum, p');
  }

  lemma InvFacts(c: Config, p: Pipe, t: Trace, sent: seq<byte>, queue: seq<byte>, contiguous: nat)
    requires Inv(c, p, t, sent, queue, contiguous)
    ensures p.left <= LeftIn(c.volumeSize, p.amount) && p.amount < TWO64 && p.left < 0x10000
    ensures p.consumed <= |c.input| && (p.inputEof ==> p.consumed == |c.input|) && GoodConfig(c)
    ensures p.waitingForUser ==> p.status == Dead
    ensures p.inputEof && queue == [] && c.input != [] ==> p.status == Working && p.left == 0 && sent == c.input
  {
    hide Formatted;
    assert c.input[..|c.input|] == c.input;
    assert queue == [] ==> sent + queue == sent;
  }

  /** The buffer and the volume as the machine sees them. */
  lemma SendFacts(c: Config, p: Pipe, t: Trace, sent: seq<byte>, queue: seq<byte>, contiguous: nat, front: nat)
    requires Inv(c, p, t, sent, queue, contiguous) && queue != []
    requires AtFront(c, front, |sent|)
    requires contiguous == if |queue| <= c.bufferSize + 1 - front then |queue| else c.bufferSize + 1 - front
    ensures var s := Course(p, |sent|);
            Sane(c, s) && |sent| < p.consumed && Reach(c, s) == contiguous && Sendable(c, s) == p.left
    ensures sent == c.input[..|sent|] && queue == c.input[|sent|..p.consumed]
  {
    InvCourse(c, p, t, sent, queue, contiguous);
    hide Formatted, Sized, LeftIn;
  }

  /** From here on the inner loop leads to r. */
  ghost predicate Leads(c: Config, s: Course, writes: seq<nat>, w: nat, total: nat, bytesRead: nat, r: Course)
  {
    Sane(c, s) && s.sent < s.pipe.consumed && w <= |writes| && Send(c, s, writes, w, total, bytesRead) == r
  }

  lemma LeadsFrom(c: Config, s: Course, writes: seq<nat>, bytesRead: nat, r: Course)
    requires Sane(c, s) && s.sent < s.pipe.consumed && r == Send(c, s, writes, 0, 0, bytesRead)
    ensures Leads(c, s, writes, 0, 0, bytesRead, r)
  {
  }

  lemma LeadsStep(c: Config, s: Course, writes: seq<nat>, w: nat, total: nat, bytesRead: nat, r: Course)
    requires Leads(c, s, writes, w, total, bytesRead, r)
    ensures Starting(c, s.pipe) ==> r == Kept(s, Started(c, s.pipe, Reach(c, s)))
    ensures !Starting(c, s.pipe) && Sendable(c, s) == 0 ==> r == Kept(s, ClosedVolume(c, s.pipe, c.input[..s.sent]))
    ensures !Starting(c, s.pipe) && Sendable(c, s) > 0 && (w == |writes| || writes[w] == 0) ==> r == s
  {
    hide Started, ClosedVolume, Sendable, Wrote, Clamp, Starting, Reach;
  }

  lemma LeadsOn(c: Config, s: Course, writes: seq<nat>, w: nat, total: nat, bytesRead: nat, r: Course)
    requires Leads(c, s, writes, w, total, bytesRead, r)
    requires !Starting(c, s.pipe) && Sendable(c, s) > 0 && w < |writes| && writes[w] > 0
    ensures var n := Clamp(writes[w], 1, Sendable(c, s));
            var s' := Wrote(c, s, n);
            if total + n >= bytesRead || s'.sent == s'.pipe.consumed then r == s'
            else Leads(c, s', writes, w + 1, total + n, bytesRead, r)
  {
    hide Started, ClosedVolume, Sendable, Wrote, Clamp, Starting, Reach;
  }

  lemma WroteIs(c: Config, s: Course, buf: seq<byte>, n: nat)
    requires Sane(c, s) && n <= |buf| && n <= Sendable(c, s) && |buf| <= |c.input| - s.sent
    requires buf == c.input[s.sent..s.sent + |buf|]
    ensures var p := s.pipe;
            Wrote(c, s, n)
            == Course(p.(left := p.left - n, amount := (p.amount + n) % TWO64, output := p.output + buf[..n]),
                      s.sent + n)
  {
    assert buf[..n] == c.input[s.sent..s.sent + n];
  }

  /** get reports the first contiguous piece of the buffer. */
  method Offer(c: Config, p: Pipe, rb: RingBuffer, md5: Md5.MD5Summer, ghost t: Trace) returns (buf: seq<byte>)
    requires State(c, p, t, rb, md5) && rb.Queue() != []
    modifies rb`rpos
    ensures State(c, p, t, rb, md5) && rb.Queue() == old(rb.Queue())
    ensures buf <= rb.Queue() && |buf| == rb.Contiguous()
    ensures var s := View(p, md5);
            && Sane(c, s) && s.sent < p.consumed && Reach(c, s) == |buf| && Sendable(c, s) == p.left
            && buf == c.input[s.sent..s.sent + |buf|] && md5.fed == c.input[..s.sent] && p.left < 0x10000
    ensures Min(Min(|buf|, LeftIn(c.volumeSize, p.amount)), p.left) == p.left
  {
    hide Inv, AtFront, Md5.Absorbed, Md5.Totals, Between, LeftIn;
    buf := rb.Get();
    InvFacts(c, p, t, md5.fed, rb.Queue(), rb.Contiguous());
    SendFacts(c, p, t, md5.fed, rb.Queue(), rb.Contiguous(), rb.Front());
  }

  /** One turn of the inner loop: starts a stretch, closes a full volume, or writes a piece of the open
      stretch. It is the last if it does not write, or if nothing is buffered any more, or if as much
      has been written as was read. */
  method Turn(c: Config, p0: Pipe, rb: RingBuffer, md5: Md5.MD5Summer, writes: seq<nat>, w: nat, total0: nat,
              bytesRead: nat, ghost t0: Trace, ghost r: Course)
    returns (p: Pipe, total: nat, last: bool, ghost t: Trace)
    requires State(c, p0, t0, rb, md5) && p0.status == Working && rb.Queue() != []
    requires Leads(c, View(p0, md5), writes, w, total0, bytesRead, r) && w <= |writes|
    modifies rb`rpos, md5, md5.buffer
    ensures State(c, p, t, rb, md5) && t.j0 == t0.j0
    ensures md5.fed + rb.Queue() == old(md5.fed + rb.Queue())
    ensures last ==> View(p, md5) == r
    ensures !last ==> w < |writes| && p.status == Working && rb.Queue() != []
    ensures !last ==> w < |writes| && Leads(c, View(p, md5), writes, w + 1, total, bytesRead, r)
  {
    hide State, Inv, AtFront, Md5.Absorbed, Md5.Totals, Between, LeftIn, Started, ClosedVolume, Leads, Send, Wrote,
         Sendable, Reach;
    p, t, total, last := p0, t0, total0, true;
    var buf := Offer(c, p, rb, md5, t);
    ghost var s := View(p, md5);
    LeadsStep(c, s, writes, w, total, bytesRead, r);
    var leftInVolume := LeftIn(c.volumeSize, p.amount);
    if leftInVolume >= 3 && p.left == 0 {
      p, t := StartStretch(c, p, rb, md5, |buf|, t);
      return;
    }
    var len := Min(Min(|buf|, leftInVolume), p.left);
    if len == 0 {
      p, t := EndVolume(c, p, rb, md5, t);
      return;
    }
    if w == |writes| || writes[w] == 0 {
      return;
    }
    var ret := Clamp(writes[w], 1, len);
    LeadsOn(c, s, writes, w, total, bytesRead, r);
    WroteIs(c, s, buf, ret);
    p, t := WritePiece(c, p, rb, md5, buf, ret, t);
    total := total + ret;
    last := total >= bytesRead || rb.Available() == 0;
  }

  /** The inner loop: turns until the last one. */
  method SendOut(c: Config, p0: Pipe, rb: RingBuffer, md5: Md5.MD5Summer, writes: seq<nat>, bytesRead: nat,
                 ghost t0: Trace)
    returns (p: Pipe, ghost t: Trace)
    requires State(c, p0, t0, rb, md5) && p0.status == Working && rb.Queue() != []
    modifies rb`rpos, md5, md5.buffer
    ensures State(c, p, t, rb, md5) && t.j0 == t0.j0
    ensures var s0 := old(View(p0, md5));
            Sane(c, s0) && s0.sent < p0.consumed && View(p, md5) == Send(c, s0, writes, 0, 0, bytesRead)
    ensures md5.fed + rb.Queue() == old(md5.fed + rb.Queue())
  {
    hide Inv, AtFront, Md5.Absorbed, Md5.Totals, Between, Leads, Send;
    p, t := p0, t0;
    var total: nat, w: nat, last := 0, 0, false;
    SendFacts(c, p, t, md5.fed, rb.Queue(), rb.Contiguous(), rb.Front());
    ghost var r := Send(c, View(p, md5), writes, 0, 0, bytesRead);
    LeadsFrom(c, View(p, md5), writes, bytesRead, r);
    while !last
      invariant State(c, p, t, rb, md5) && t.j0 == t0.j0 && w <= |writes| + 1
      invariant if last then View(p, md5) == r else
        && w <= |writes| && p.status == Working && rb.Queue() != []
        && Leads(c, View(p, md5), writes, w, total, bytesRead, r)
      invariant md5.fed + rb.Queue() == old(md5.fed + rb.Queue())
      decreases |writes| + 1 - w
    {
      p, total, last, t := Turn(c, p, rb, md5, writes, w, total, bytesRead, t, r);
      w := w + 1;
    }
  }

  lemma InvRead(c: Config, p: Pipe, t: Trace, sent: seq<byte>, queue: seq<byte>, contiguous: nat, n: nat,
                contiguous': nat, p': Pipe)
    requires Inv(c, p, t, sent, queue, contiguous) && n <= |c.input| - p.consumed
    requires (n == 0 ==> p.consumed == |c.input|)
    requires queue != [] ==> contiguous' >= contiguous
    requires p' == p.(consumed := p.consumed + n, inputEof := n == 0) && !p.inputEof
    ensures Inv(c, p', t, sent, queue + c.input[p.consumed..p.consumed + n], contiguous')
  {
    hide Format, LeftIn, HeaderLength;
    var more := c.input[p.consumed..p.consumed + n];
    assert sent + (queue + more) == sent + queue + more;
    assert c.input[..p.consumed] + more == c.input[..p.consumed + n];
  }

  lemma InvStatus(c: Config, p: Pipe, t: Trace, sent: seq<byte>, queue: seq<byte>, contiguous: nat, p': Pipe)
    requires Inv(c, p, t, sent, queue, contiguous) && p.status != Working
    requires p' == p.(status := Dead) || (p.status == Dead && p' == p.(waitingForUser := true))
    ensures Inv(c, p', t, sent, queue, contiguous)
  {
    hide Format, LeftIn, HeaderLength, ReadSent;
  }

  /** Reading standard input into the ring; at the end of input a read returns nothing. */
  method ReadInput(c: Config, p: Pipe, rb: RingBuffer, md5: Md5.MD5Summer, read: nat, ghost t: Trace)
    returns (p': Pipe, bytesRead: nat)
    requires State(c, p, t, rb, md5) && !p.inputEof && rb.Room() > 0
    modifies rb`wpos, rb.vector
    ensures State(c, p', t, rb, md5)
    ensures p' == p.(consumed := p.consumed + bytesRead, inputEof := bytesRead == 0)
    ensures Sane(c, View(p, md5)) && Buffered(c, View(p, md5)) < c.bufferSize
      && bytesRead == ReadSize(c, View(p, md5), read) && md5.fed == old(md5.fed)
  {
    hide Inv, AtFront, Md5.Absorbed, Md5.Totals, Between;
    ghost var sent, queue, contiguous := md5.fed, rb.Queue(), rb.Contiguous();
    InvFacts(c, p, t, sent, queue, contiguous);
    InvCourse(c, p, t, sent, queue, contiguous);
    var available := Min(Min(100000, rb.Room()), |c.input| - p.consumed);
    bytesRead := if p.consumed == |c.input| then 0 else Clamp(read, 1, available);
    var block := c.input[p.consumed..p.consumed + bytesRead];
    var ok := rb.Store(block);
    p' := p.(consumed := p.consumed + bytesRead, inputEof := bytesRead == 0);
    InvRead(c, p, t, sent, queue, contiguous, bytesRead, rb.Contiguous(), p');
    assert block == [] ==> queue + block == queue;
  }

  /** The start of a pass: a dead output command is replaced or the user is asked to change media, and
      a dying one may be seen to have exited. */
  method Lifecycle(c: Config, p0: Pipe, ev: Event, available: nat, ghost t0: Trace, ghost sent: seq<byte>,
                   ghost queue: seq<byte>, ghost contiguous: nat) returns (p: Pipe, ghost t: Trace)
    requires Inv(c, p0, t0, sent, queue, contiguous)
    ensures Inv(c, p, t, sent, queue, contiguous) && t.j0 == t0.j0
    ensures GoodConfig(c) && p == Tended(c, p0, ev, available)
  {
    hide Inv, EncodeAll, HeaderStretches;
    p, t := p0, t0;
    InvFacts(c, p, t, sent, queue, contiguous);
    if !p.waitingForUser && p.status == Dead && WorthStarting(c, p, available) {
      if !c.noPrompt && !p.firstVolume {
        p := p.(waitingForUser := true);
        InvStatus(c, p0, t, sent, queue, contiguous, p);
      } else {
        p, t := Spawn(c, p, ev.now, t, sent, queue, contiguous);
      }
    }
    if p.status == Dying && ev.reaped {
      InvStatus(c, p, t, sent, queue, contiguous, p.(status := Dead));
      p := p.(status := Dead);
    }
  }

  /** The rest of a pass once select has reported something. */
  method Serve(c: Config, p0: Pipe, rb: RingBuffer, md5: Md5.MD5Summer, ev: Event, ghost t0: Trace)
    returns (p: Pipe, ghost t: Trace)
    requires State(c, p0, t0, rb, md5)
    modifies rb, rb.vector, md5, md5.buffer
    ensures State(c, p, t, rb, md5) && t.j0 == t0.j0
    ensures GoodConfig(c) && Sane(c, old(View(p0, md5))) && View(p, md5) == Served(c, old(View(p0, md5)), ev)
  {
    hide Inv, AtFront, Md5.Absorbed, Md5.Totals, Between, Spawned, ReadSize, Send, Leads;
    p, t := p0, t0;
    ghost var s0 := View(p, md5);
    InvCourse(c, p, t, md5.fed, rb.Queue(), rb.Contiguous());
    InvFacts(c, p, t, md5.fed, rb.Queue(), rb.Contiguous());
    var selected := !p.inputEof && rb.Room() > 0;
    var outputSelected := rb.Available() > 0 && p.status == Working;
    if p.waitingForUser && ev.enter {
      p, t := Spawn(c, p, ev.now, t, md5.fed, rb.Queue(), rb.Contiguous());
    }
    var bytesRead := 0;
    ghost var keyed := View(p, md5);
    assert keyed == Kept(s0, Keyed(c, p0, ev));
    if selected && ev.readable {
      p, bytesRead := ReadInput(c, p, rb, md5, ev.read, t);
    }
    assert (View(p, md5), bytesRead) == Fed(c, keyed, ev);
    hide Keyed, Fed;
    InvCourse(c, p, t, md5.fed, rb.Queue(), rb.Contiguous());
    if p.status == Working && rb.Available() > 0 && outputSelected && ev.writable {
      p, t := SendOut(c, p, rb, md5, ev.writes, bytesRead, t);
    }
  }

  /** One pass of the main loop; stop is set when all input has been read and sent. */
  method Pass(c: Config, p0: Pipe, rb: RingBuffer, md5: Md5.MD5Summer, ev: Event, ghost t0: Trace)
    returns (p: Pipe, stop: bool, ghost t: Trace)
    requires State(c, p0, t0, rb, md5)
    modifies rb, rb.vector, md5, md5.buffer
    ensures State(c, p, t, rb, md5) && t.j0 == t0.j0
    ensures GoodConfig(c) && Sane(c, old(View(p0, md5))) && View(p, md5) == Passed(c, old(View(p0, md5)), ev)
    ensures stop <==> ev.ready && SplitCourse.Drained(View(p, md5))
    ensures md5.fed == c.input[..|md5.fed|] && rb.Queue() == c.input[|md5.fed|..p.consumed]
  {
    hide Inv, AtFront, Md5.Absorbed, Md5.Totals, Between, Tended, Served;
    stop := false;
    InvCourse(c, p0, t0, md5.fed, rb.Queue(), rb.Contiguous());
    p, t := Lifecycle(c, p0, ev, rb.Available(), t0, md5.fed, rb.Queue(), rb.Contiguous());
    InvCourse(c, p, t, md5.fed, rb.Queue(), rb.Contiguous());
    if !ev.ready {
      return;
    }
    p, t := Serve(c, p, rb, md5, ev, t);
    InvCourse(c, p, t, md5.fed, rb.Queue(), rb.Contiguous());
    stop := p.inputEof && rb.Available() == 0;
  }

  /** joinpipe on the finished volumes, each followed by anything, ends in the reader's state. */
  lemma FinalJoin(f: Md5.Compress, j0: Joiner, log: Log, volumes: seq<seq<byte>>, files: seq<seq<byte>>)
    requires LogOk(f, j0, log) && j0.status.Running? && !Reader(f, j0, log).status.Running?
    requires volumes == log.volumes + [EncodeAll(log.cur, |log.cur|)] && Shows(files, volumes)
    ensures Join(f, files, 0, 0, j0) == Reader(f, j0, log)
  {
    hide Join, Stays, EncodeAll, After, Walk, AllFit;
    var n := |log.bodies|;
    assert |log.volumes| == n by { ClosedLength(f, j0, log); }
    hide Closed;
    assert forall k :: 0 <= k < n ==> log.volumes[k] == volumes[k] <= files[k];
    assert volumes[n] <= files[n];
    JoinVolumes(f, files, j0, log.bodies, log.volumes, n);
    var j := Closing(f, j0, log);
    if j.status.Running? {
      JoinLast(f, files, n, j, log.cur);
    }
  }

  lemma ClosedLength(f: Md5.Compress, j0: Joiner, log: Log)
    requires LogOk(f, j0, log)
    ensures |log.volumes| == |log.bodies|
  {
  }

  /** What a finished run leaves behind. */
  ghost predicate Finale(c: Config, t: Trace, volumes: seq<seq<byte>>)
  {
    var j := Reader(c.f, t.j0, t.log);
    && LogOk(c.f, t.j0, t.log) && volumes == t.log.volumes + [EncodeAll(t.log.cur, |t.log.cur|)]
    && (if t.empty then j.status.Failed? else j.status.Finished? && j.out == c.input)
  }

  /** Every volume is within the configured size, of which 2048 bytes were set aside. */
  predicate WithinSize(c: Config, volumes: seq<seq<byte>>)
  {
    HeaderLength(c.uuid, c.name) <= c.volumeSize ==>
      forall k :: 0 <= k < |volumes| ==> |volumes[k]| <= c.volumeSize + 22
  }

  lemma InvFinish(c: Config, p: Pipe, t: Trace, contiguous: nat, checksum: seq<byte>, volumes: seq<seq<byte>>)
    returns (t': Trace)
    requires Inv(c, p, t, c.input, [], contiguous) && p.status == Working && p.left == 0
    requires |Md5.Digest(c.f, c.input)| == 16 && checksum == Encode(Stretch(MD5_CHECKSUM, Md5.Digest(c.f, c.input)))
    requires volumes == p.volumes + [p.output + checksum + Encode(Stretch(SESSION_EOF, []))]
    ensures |volumes| == p.volumeNumber && WithinSize(c, volumes) && t'.j0 == t.j0 && t'.empty == t.empty
    ensures |volumes| <= 0x10000 ==> Finale(c, t', volumes)
  {
    hide Format, ReadSent, Md5.Digest, LeftIn, HeaderLength, LogOk, Reader;
    assert |checksum| == 19 && |Encode(Stretch(SESSION_EOF, []))| == 3;
    hide Encode;
    t' := t;
    if p.volumeNumber <= 0x10000 {
      var log' := FormatFinish(c.f, t.j0, t.log, p.output, p.volumes, c.uuid, p.volumeNumber, t.data, c.input, t.empty);
      t' := t.(log := log');
    }
  }

  lemma EmptyFlag(c: Config, p: Pipe, t: Trace, sent: seq<byte>, queue: seq<byte>, contiguous: nat)
    requires Inv(c, p, t, sent, queue, contiguous)
    ensures t.empty == p.startedAtThree
  {
  }

  /** After the loop: a working output command is given the checksum and SessionEOF. */
  method Finish(c: Config, p: Pipe, rb: RingBuffer, md5: Md5.MD5Summer, ghost t: Trace)
    returns (volumes: seq<seq<byte>>, ghost t': Trace)
    requires State(c, p, t, rb, md5) && Sane(c, View(p, md5)) && p.inputEof && rb.Queue() == []
    requires md5.fed == c.input[..|md5.fed|]
    ensures volumes == Volumes(c, View(p, md5)) && t'.j0 == t.j0 && t'.empty == t.empty
    ensures c.input != [] ==> EndsSession(c, volumes) && WithinSize(c, volumes)
    ensures c.input != [] && |volumes| <= 0x10000 ==> Finale(c, t', volumes)
  {
    hide Inv, AtFront, Md5.Absorbed, Md5.Totals, Between, LogOk, Reader, Encode, WithinSize, Md5.Digest;
    t', volumes := t, [];
    InvFacts(c, p, t, md5.fed, rb.Queue(), rb.Contiguous());
    if p.status == Working {
      var checksum := Checksum(md5);
      volumes := p.volumes + [p.output + checksum + Encode(Stretch(SESSION_EOF, []))];
      if c.input != [] {
        t' := InvFinish(c, p, t, rb.Contiguous(), checksum, volumes);
        SessionEnded(c, p.volumes, p.output, volumes);
      }
    }
  }

  /** The last volume ends with the checksum of the input and SessionEOF. */
  ghost predicate EndsSession(c: Config, volumes: seq<seq<byte>>)
  {
    && volumes != []
    && exists before: seq<byte> :: volumes[|volumes| - 1]
        == before + Encode(Stretch(MD5_CHECKSUM, Md5.Digest(c.f, c.input))) + Encode(Stretch(SESSION_EOF, []))
  }

  lemma SessionEnded(c: Config, before: seq<seq<byte>>, output: seq<byte>, volumes: seq<seq<byte>>)
    requires |Md5.Digest(c.f, c.input)| < 0x10000
    requires volumes == before
      + [output + Encode(Stretch(MD5_CHECKSUM, Md5.Digest(c.f, c.input))) + Encode(Stretch(SESSION_EOF, []))]
    ensures EndsSession(c, volumes)
  {
    hide Encode, Md5.Digest;
  }

  /** SplitpipeClass::go over a sequence of events, the output command staying alive and nobody
      interrupting. Its outcome is the machine's. When it ends on a non-empty input, the last volume
      ends with the running checksum and SessionEOF, every volume keeps to its size, and joinpipe's
      fate is settled: see Finale. */
  method Go(c: Config, events: seq<Event>, ghost buffer0: (byte, byte))
    returns (finished: bool, volumes: seq<seq<byte>>, ghost t: Trace)
    requires GoodConfig(c)
    ensures finished == Ends(c, events) && t.empty == StartsAtThree(c, events)
    ensures volumes == if finished then Volumes(c, Run(c, events, |events|).0) else []
    ensures t.j0 == Joiner([], 0, buffer0, [], Running)
    ensures finished && c.input != [] ==> EndsSession(c, volumes) && WithinSize(c, volumes)
    ensures finished && c.input != [] && |volumes| <= 0x10000 ==> Finale(c, t, volumes)
  {
    hide Inv, AtFront, Md5.Absorbed, Md5.Totals, Between, Passed, Run, Volumes, EndsSession, WithinSize, Finale;
    var rb := new RingBuffer(c.bufferSize);
    var md5 := new Md5.MD5Summer(c.f);
    var p := StartPipe();
    t := StartTrace(buffer0);
    StartInv(c, buffer0, rb.Contiguous());
    FrontAtStart(c);
    RunStart(c, events);
    finished, volumes := false, [];
    var i := 0;
    while i < |events| && !finished
      invariant i <= |events| && State(c, p, t, rb, md5) && fresh(rb) && fresh(rb.vector) && fresh(md5)
      invariant fresh(md5.buffer)
      invariant t.j0 == Joiner([], 0, buffer0, [], Running)
      invariant Run(c, events, i) == (View(p, md5), finished)
      invariant md5.fed == c.input[..|md5.fed|] && rb.Queue() == c.input[|md5.fed|..p.consumed]
      invariant finished ==> p.inputEof && rb.Queue() == []
    {
      RunStep(c, events, i);
      p, finished, t := Pass(c, p, rb, md5, events[i], t);
      i := i + 1;
    }
    RunEnded(c, events, i, |events|);
    EmptyFlag(c, p, t, md5.fed, rb.Queue(), rb.Contiguous());
    if finished {
      volumes, t := Finish(c, p, rb, md5, t);
    }
  }
}
