/** The stretches splitpipe has written so far, and what joinpipe will make of them. */
module SessionLog {
  import opened Bytes
  import opened Stretches
  import Md5

  /** Closed volumes by their stretches before VolumeEOF and as files; the complete stretches of the
      current volume; the bytes already written of a Data stretch that is still open. */
  datatype Log = Log(bodies: seq<seq<Stretch>>, volumes: seq<seq<byte>>, cur: seq<Stretch>, part: seq<byte>)

  const EMPTY: Log := Log([], [], [], [])

  ghost function Closing(f: Md5.Compress, j0: Joiner, log: Log): (j: Joiner)
  {
    After(f, j0, log.bodies, |log.bodies|)
  }

  /** joinpipe's state after every complete stretch written so far. */
  ghost function Reader(f: Md5.Compress, j0: Joiner, log: Log): (j: Joiner)
  {
    var j := Closing(f, j0, log);
    if j.status.Running? then Walk(f, j, log.cur, |log.cur|) else j
  }

  /** joinpipe follows the volumes in the order they were written. */
  ghost predicate LogOk(f: Md5.Compress, j0: Joiner, log: Log)
  {
    && Closed(f, j0, log.bodies, log.volumes) && AllFit(log.cur)
    && (Closing(f, j0, log).status.Running? ==> Stays(f, Closing(f, j0, log), log.cur))
  }

  lemma EmptyOk(f: Md5.Compress, j0: Joiner)
    ensures LogOk(f, j0, EMPTY) && Reader(f, j0, EMPTY) == j0
  {
  }

  /** A further complete stretch in the current volume. */
  lemma AddStretch(f: Md5.Compress, j0: Joiner, log: Log, s: Stretch, log': Log)
    requires LogOk(f, j0, log) && Fits(s) && log' == log.(cur := log.cur + [s], part := [])
    requires Reader(f, j0, log).status.Running? ==> !Leaves(Reader(f, j0, log), s)
    ensures LogOk(f, j0, log')
    ensures Reader(f, j0, log') == var j := Reader(f, j0, log); (if j.status.Running? then Take(f, j, s) else j)
    ensures EncodeAll(log'.cur, |log'.cur|) == EncodeAll(log.cur, |log.cur|) + Encode(s)
  {
    var j := Closing(f, j0, log);
    hide Closed, After, Stays, Walk, Take, Leaves, Encode, EncodeAll, Fits, AllFit;
    EncodeSnoc(log.cur, s);
    if j.status.Running? {
      StaysSnoc(f, j, log.cur, s);
    }
  }

  /** The current volume is closed by VolumeEOF; joinpipe's state does not change. */
  lemma CloseVolume(f: Md5.Compress, j0: Joiner, log: Log, volume: seq<byte>, log': Log)
    requires LogOk(f, j0, log) && volume == EncodeAll(log.cur, |log.cur|) + Encode(END)
    requires log' == Log(log.bodies + [log.cur], log.volumes + [volume], [], [])
    ensures LogOk(f, j0, log') && Reader(f, j0, log') == Reader(f, j0, log)
  {
    var j := Closing(f, j0, log);
    hide After, Walk, Encode, EncodeAll, Closed;
    ClosedSnoc(f, j0, log.bodies, log.volumes, log.cur, volume);
    AfterSnoc(f, j0, log.bodies, log.cur, j);
    WalkZero(f, Closing(f, j0, log'), []);
  }

  /** joinpipe is where the writer is: it knows the session, has counted the volumes, and has put
      out all data of complete stretches; or it has failed at an empty Data stretch. */
  ghost predicate InStep(j: Joiner, uuid: seq<byte>, volumeNumber: nat, data: seq<byte>, emptyStretch: bool)
  {
    if emptyStretch then j.status.Failed?
    else
      && j.status.Running? && j.uuid == (if volumeNumber == 0 then [] else uuid)
      && j.numVolumes == volumeNumber && j.out == data
  }

  /** The stretches every volume begins with. */
  function HeaderStretches(uuid: seq<byte>, now: u32, name: seq<byte>, volumeNumber: nat): (ss: seq<Stretch>)
  {
    [Stretch(SESSION_UUID, uuid), Stretch(VOLUME_DATE, U32(now))]
    + (if name == [] then [] else [Stretch(SESSION_NAME, name)])
    + [Stretch(VOLUME_NUMBER, U16(volumeNumber % 0x10000))]
  }

  /** A stretch without effect on a running joinpipe. */
  lemma NoEffect(f: Md5.Compress, j: Joiner, s: Stretch)
    requires j.status.Running? && s.kind in {SESSION_NAME, VOLUME_DATE}
    ensures !Leaves(j, s) && Take(f, j, s) == j.(buffer := Overlay(s.payload, j.buffer))
  {
  }

  lemma NumberTakes(f: Md5.Compress, j: Joiner, n: nat)
    requires j.status.Running? && n < 0x10000 && j.numVolumes == n
    ensures var s := Stretch(VOLUME_NUMBER, U16(n));
            !Leaves(j, s) && Take(f, j, s).(buffer := j.buffer) == j.(numVolumes := n + 1)
  {
    Get16Inverts(n);
  }

  lemma UuidTakes(f: Md5.Compress, j: Joiner, uuid: seq<byte>)
    requires j.status.Running? && uuid != [] && (j.uuid == [] || j.uuid == uuid)
    ensures var s := Stretch(SESSION_UUID, uuid);
            !Leaves(j, s) && Take(f, j, s).(buffer := j.buffer) == j.(uuid := uuid)
  {
  }

  /** Opening a volume: joinpipe learns the session, counts the volume, and stays in step. */
  lemma OpenVolume(f: Md5.Compress, j0: Joiner, log: Log, uuid: seq<byte>, now: u32, name: seq<byte>, n: nat,
                   data: seq<byte>, empty: bool) returns (log': Log)
    requires LogOk(f, j0, log) && log.cur == [] && log.part == []
    requires n < 0x10000 && 0 < |uuid| < 0x10000 && |name| < 0x10000
    requires InStep(Reader(f, j0, log), uuid, n, data, empty)
    ensures log' == log.(cur := HeaderStretches(uuid, now, name, n))
    ensures LogOk(f, j0, log') && InStep(Reader(f, j0, log'), uuid, n + 1, data, empty)
  {
    hide LogOk, Reader, Take, Leaves, Encode, EncodeAll, U32, U16;
    var j := Reader(f, j0, log);
    var s1, s2, s3, s4 := Stretch(SESSION_UUID, uuid), Stretch(VOLUME_DATE, U32(now)), Stretch(SESSION_NAME, name),
                          Stretch(VOLUME_NUMBER, U16(n));
    if !empty {
      UuidTakes(f, j, uuid);
    }
    log' := log.(cur := log.cur + [s1]);
    AddStretch(f, j0, log, s1, log');
    j := Reader(f, j0, log');
    if !empty {
      NoEffect(f, j, s2);
    }
    var log2 := log'.(cur := log'.cur + [s2]);
    AddStretch(f, j0, log', s2, log2);
    j := Reader(f, j0, log2);
    var log3 := log2;
    if name != [] {
      if !empty {
        NoEffect(f, j, s3);
      }
      log3 := log2.(cur := log2.cur + [s3]);
      AddStretch(f, j0, log2, s3, log3);
      j := Reader(f, j0, log3);
    }
    if !empty {
      NumberTakes(f, j, n);
    }
    log' := log3.(cur := log3.cur + [s4]);
    AddStretch(f, j0, log3, s4, log');
    assert n % 0x10000 == n;
    assert log'.cur == HeaderStretches(uuid, now, name, n);
  }

  /** A complete Data stretch; an empty one makes joinpipe fail. */
  lemma DataTakes(f: Md5.Compress, j: Joiner, payload: seq<byte>)
    requires j.status.Running?
    ensures var s := Stretch(DATA, payload);
            !Leaves(j, s)
            && (payload == [] ==> Take(f, j, s).status.Failed?)
            && (payload != [] ==> Take(f, j, s).(buffer := j.buffer) == j.(out := j.out + payload))
  {
  }

  lemma AddData(f: Md5.Compress, j0: Joiner, log: Log, payload: seq<byte>, log': Log, uuid: seq<byte>, n: nat,
                data: seq<byte>, empty: bool)
    requires LogOk(f, j0, log) && |payload| < 0x10000
    requires log' == log.(cur := log.cur + [Stretch(DATA, payload)], part := [])
    requires InStep(Reader(f, j0, log), uuid, n, data, empty)
    ensures LogOk(f, j0, log') && InStep(Reader(f, j0, log'), uuid, n, data + payload, empty || payload == [])
    ensures EncodeAll(log'.cur, |log'.cur|) == EncodeAll(log.cur, |log.cur|) + Encode(Stretch(DATA, payload))
  {
    hide LogOk, Reader, Take, Leaves, Encode, EncodeAll;
    if !empty {
      DataTakes(f, Reader(f, j0, log), payload);
    }
    AddStretch(f, j0, log, Stretch(DATA, payload), log');
  }

  lemma ChecksumTakes(f: Md5.Compress, j: Joiner)
    requires j.status.Running?
    ensures var s := Stretch(MD5_CHECKSUM, Md5.Digest(f, j.out));
            !Leaves(j, s) && Take(f, j, s) == j.(buffer := Overlay(s.payload, j.buffer))
  {
    hide Md5.Digest, Overlay;
  }

  /** The running checksum is accepted. */
  lemma AddChecksum(f: Md5.Compress, j0: Joiner, log: Log, log': Log, uuid: seq<byte>, n: nat, data: seq<byte>,
                    empty: bool)
    requires LogOk(f, j0, log) && log.part == []
    requires log' == log.(cur := log.cur + [Stretch(MD5_CHECKSUM, Md5.Digest(f, data))])
    requires InStep(Reader(f, j0, log), uuid, n, data, empty)
    ensures LogOk(f, j0, log') && InStep(Reader(f, j0, log'), uuid, n, data, empty)
    ensures EncodeAll(log'.cur, |log'.cur|)
         == EncodeAll(log.cur, |log.cur|) + Encode(Stretch(MD5_CHECKSUM, Md5.Digest(f, data)))
  {
    hide LogOk, Reader, Take, Leaves, Encode, EncodeAll, Md5.Digest, Overlay;
    var s, j := Stretch(MD5_CHECKSUM, Md5.Digest(f, data)), Reader(f, j0, log);
    if !empty {
      ChecksumTakes(f, j);
    }
    AddStretch(f, j0, log, s, log');
  }

  /** The end of the session. */
  lemma AddSessionEof(f: Md5.Compress, j0: Joiner, log: Log, log': Log, uuid: seq<byte>, n: nat, data: seq<byte>,
                      empty: bool)
    requires LogOk(f, j0, log) && log.part == []
    requires log' == log.(cur := log.cur + [Stretch(SESSION_EOF, [])])
    requires InStep(Reader(f, j0, log), uuid, n, data, empty)
    ensures LogOk(f, j0, log')
    ensures var j := Reader(f, j0, log'); if empty then j.status.Failed? else j.status.Finished? && j.out == data
    ensures EncodeAll(log'.cur, |log'.cur|) == EncodeAll(log.cur, |log.cur|) + Encode(Stretch(SESSION_EOF, []))
  {
    var s, j := Stretch(SESSION_EOF, []), Reader(f, j0, log);
    if !empty {
      assert !Leaves(j, s) && Take(f, j, s).status.Finished? && Take(f, j, s).out == j.out;
    }
    hide LogOk, Reader, Take, Leaves, Encode, EncodeAll;
    AddStretch(f, j0, log, s, log');
  }
}
