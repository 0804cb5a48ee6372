/** When splitpipe starts an output command, and when it asks the user for new media. */
module SplitMedia {
  import opened Bytes
  import opened SessionLog
  import opened Stretches
  import opened SplitCourse
  import Md5

  /** Only a run with prompts asks, and only while there is no output command. */
  predicate Polite(c: Config, s: Course)
  {
    && Sane(c, s) && (s.pipe.waitingForUser ==> s.pipe.status == Dead && !c.noPrompt && s.pipe.volumeNumber > 0)
    && (s.pipe.firstVolume <==> s.pipe.volumeNumber == 0)
    && (s.pipe.status != Dead ==> s.pipe.volumeNumber > 0)
    && |s.pipe.volumes| + (if s.pipe.status == Working then 1 else 0) == s.pipe.volumeNumber
  }

  /** Writing opens no volume and asks nobody. */
  lemma {:induction false} SendPolite(c: Config, s: Course, writes: seq<nat>, w: nat, total: nat, bytesRead: nat)
    requires Polite(c, s) && Writing(s) && w <= |writes|
    ensures var r := Send(c, s, writes, w, total, bytesRead);
            && Polite(c, r) && r.pipe.status != Dead && r.pipe.volumeNumber == s.pipe.volumeNumber
            && !r.pipe.waitingForUser
    decreases |writes| - w
  {
    hide Sendable, Clamp, LeftIn, Md5.Digest, Encode, Header, Reach;
    if !Starting(c, s.pipe) && Sendable(c, s) > 0 && w < |writes| && writes[w] > 0 {
      var n := Clamp(writes[w], 1, Sendable(c, s));
      var s' := Wrote(c, s, n);
      if total + n < bytesRead && s'.sent < s'.pipe.consumed {
        SendPolite(c, s', writes, w + 1, total + n, bytesRead);
      }
    }
  }

  lemma SpawnedOpens(c: Config, p: Pipe, now: u32)
    requires GoodConfig(c)
    ensures var r := Spawned(c, p, now);
            && r.volumeNumber == p.volumeNumber + 1 && r.status == Working && !r.waitingForUser && !r.firstVolume
            && r.volumes == p.volumes
  {
    hide HeaderStretches, EncodeAll;
  }

  /** A pass opens a volume, and leaves the user asked, exactly as the code's conditions say. */
  lemma PassOpens(c: Config, s: Course, ev: Event)
    requires GoodConfig(c) && Polite(c, s)
    ensures Polite(c, Passed(c, s, ev))
    ensures
      var p, q := s.pipe, Passed(c, s, ev).pipe;
      var worth := p.inputEof || 2 * (p.consumed - s.sent) > c.bufferSize;
      var asked := p.status == Dead && !p.waitingForUser && worth && !c.noPrompt && p.volumeNumber > 0;
      var pressed := ev.ready && ev.enter;
      var opens :=
        || (p.status == Dead && !p.waitingForUser && worth && (c.noPrompt || p.volumeNumber == 0))
        || ((p.waitingForUser || asked) && pressed);
      && q.volumeNumber == p.volumeNumber + (if opens then 1 else 0)
      && q.waitingForUser == ((p.waitingForUser || asked) && !pressed)
      && (p.status == Dying ==> q.status == if ev.reaped then Dead else Dying)
      && (p.status == Working || opens ==> q.status != Dead)
      && (p.status == Dead && !opens ==> q.status == Dead)
  {
    SpawnedOpens(c, s.pipe, ev.now);
    var s1 := Kept(s, Tended(c, s.pipe, ev, Buffered(c, s)));
    SpawnedOpens(c, s1.pipe, ev.now);
    hide Spawned, Send, ReadSize;
    if ev.ready {
      var (s3, n) := Fed(c, Kept(s1, Keyed(c, s1.pipe, ev)), ev);
      if Writing(s3) {
        SendPolite(c, s3, ev.writes, 0, 0, n);
      }
    }
  }

  lemma {:induction false} RunPolite(c: Config, events: seq<Event>, n: nat)
    requires GoodConfig(c) && n <= |events|
    ensures Polite(c, Run(c, events, n).0)
  {
    hide Passed;
    if n > 0 {
      RunPolite(c, events, n - 1);
      var before := Run(c, events, n - 1);
      if !before.1 {
        PassOpens(c, before.0, events[n - 1]);
      }
    }
  }

  /** How often enter is pressed when the loop looks. */
  function Presses(events: seq<Event>, n: nat): (k: nat)
    requires n <= |events|
  {
    if n == 0 then 0 else Presses(events, n - 1) + if events[n - 1].ready && events[n - 1].enter then 1 else 0
  }

  /** Over every run with prompts: after the first volume every further one needs a key press. */
  lemma {:induction false} EachVolumeAsked(c: Config, events: seq<Event>, n: nat)
    requires GoodConfig(c) && n <= |events| && !c.noPrompt
    ensures Run(c, events, n).0.pipe.volumeNumber <= 1 + Presses(events, n)
  {
    hide Passed;
    if n > 0 {
      EachVolumeAsked(c, events, n - 1);
      RunPolite(c, events, n - 1);
      var before := Run(c, events, n - 1);
      if !before.1 {
        PassOpens(c, before.0, events[n - 1]);
      }
    }
  }

  /** So a run with prompts leaves at most one volume more than there were key presses. */
  lemma VolumesAsked(c: Config, events: seq<Event>)
    requires GoodConfig(c) && !c.noPrompt && Ends(c, events)
    ensures |Volumes(c, Run(c, events, |events|).0)| <= 1 + Presses(events, |events|)
  {
    RunPolite(c, events, |events|);
    EachVolumeAsked(c, events, |events|);
    hide Run, Encode, Md5.Digest;
  }

  /** In a run with prompts a volume after the first is opened only in a pass without an output command, by a
      key press, after the user has been asked: before this pass, or in it because the buffer is more than half
      full or holds the rest of the input. */
  lemma OpenedOnRequest(c: Config, events: seq<Event>, n: nat)
    requires GoodConfig(c) && n < |events| && !c.noPrompt
    ensures
      var p, q := Run(c, events, n).0.pipe, Run(c, events, n + 1).0.pipe;
      p.volumeNumber > 0 && q.volumeNumber > p.volumeNumber ==>
        && p.status == Dead && events[n].ready && events[n].enter
        && (p.waitingForUser || p.inputEof || 2 * (p.consumed - Run(c, events, n).0.sent) > c.bufferSize)
  {
    hide Passed;
    RunPolite(c, events, n);
    var before := Run(c, events, n);
    if !before.1 {
      PassOpens(c, before.0, events[n]);
    }
  }

  /** Without prompts nobody is asked. */
  lemma NeverAsked(c: Config, events: seq<Event>, n: nat)
    requires GoodConfig(c) && n <= |events| && c.noPrompt
    ensures !Run(c, events, n).0.pipe.waitingForUser
  {
    RunPolite(c, events, n);
  }

  // ---------------------------------------------------------------- what a volume begins and ends with

  /** A stretch is its size, highest byte first, its type and its content. */
  lemma StretchBytes(s: Stretch)
    requires |s.payload| < 0x10000
    ensures Encode(s) == U16(|s.payload|) + [s.kind] + s.payload && Number(U16(|s.payload|)) == |s.payload|
  {
    NumberU16(|s.payload|);
  }

  lemma {:induction false} EncodeFour(ss: seq<Stretch>)
    requires |ss| == 4 && AllFit(ss)
    ensures EncodeAll(ss, 4) == Encode(ss[0]) + Encode(ss[1]) + Encode(ss[2]) + Encode(ss[3])
  {
    hide Encode;
    EncodeThree(ss[..3]);
    EncodePrefix(ss[..3], ss[3..], 3);
    assert ss[..3] + ss[3..] == ss;
  }

  lemma EncodeThree(ss: seq<Stretch>)
    requires |ss| == 3 && AllFit(ss)
    ensures EncodeAll(ss, 3) == Encode(ss[0]) + Encode(ss[1]) + Encode(ss[2])
  {
    hide Encode;
    assert EncodeAll(ss, 0) == [];
    assert EncodeAll(ss, 1) == [] + Encode(ss[0]) == Encode(ss[0]);
  }

  /** A new output command is given the session's id, the date, the label if there is one, and the number of
      the volume, each as a stretch of its own type. */
  lemma OpeningBytes(c: Config, p: Pipe, now: u32)
    returns (uuid: seq<byte>, date: seq<byte>, title: seq<byte>, number: seq<byte>)
    requires GoodConfig(c)
    ensures Spawned(c, p, now).output == uuid + date + title + number
    ensures uuid == [0, 16, 1] + c.uuid
    ensures |date| == 7 && date[..3] == [0, 4, 8] && Number(date[3..]) == now
    ensures if c.name == [] then title == [] else
              |title| == 3 + |c.name| && Number(title[..2]) == |c.name| && title[2] == 0 && title[3..] == c.name
    ensures |number| == 5 && number[..3] == [0, 2, 2] && Number(number[3..]) == p.volumeNumber % 0x10000
  {
    var n := p.volumeNumber;
    HeaderFits(c.uuid, now, c.name, n);
    var ss := HeaderStretches(c.uuid, now, c.name, n);
    var last := ss[|ss| - 1];
    NumberU32(now);
    NumberU16(n % 0x10000);
    SmallSizes();
    hide U16, U32, Number, Encode, EncodeAll;
    StretchBytes(ss[0]);
    StretchBytes(ss[1]);
    StretchBytes(last);
    uuid, date, title, number := Encode(ss[0]), Encode(ss[1]), [], Encode(last);
    if c.name == [] {
      EncodeThree(ss);
      assert uuid + date + [] + number == uuid + date + number;
    } else {
      EncodeFour(ss);
      StretchBytes(ss[2]);
      title := Encode(ss[2]);
    }
  }

  lemma SmallSizes()
    ensures U16(16) == [0, 16] && U16(4) == [0, 4] && U16(2) == [0, 2]
  {
  }

  /** A volume is closed by the digest of all data so far and VolumeEOF; the session by the digest and SessionEOF. */
  lemma ClosingBytes(c: Config, s: Course)
    requires Sane(c, s) && s.pipe.status == Working && |Md5.Digest(c.f, c.input[..s.sent])| == 16
    ensures var digest := Md5.Digest(c.f, c.input[..s.sent]);
            && ClosedVolume(c, s.pipe, c.input[..s.sent]).volumes
                 == s.pipe.volumes + [s.pipe.output + ([0, 16, 5] + digest) + [0, 0, 3]]
            && Volumes(c, s) == s.pipe.volumes + [s.pipe.output + ([0, 16, 5] + digest) + [0, 0, 7]]
  {
    hide Md5.Digest;
    SmallSizes();
    assert U16(0) == [0, 0];
    var digest := Md5.Digest(c.f, c.input[..s.sent]);
    assert Encode(Stretch(MD5_CHECKSUM, digest)) == [0, 16, 5] + digest;
    assert Encode(END) == [0, 0, 3] && Encode(Stretch(SESSION_EOF, [])) == [0, 0, 7];
    hide Encode;
  }

  // ---------------------------------------------------------------- what is read and written

  /** Input is read exactly if it has not ended, there is room and it is readable: as much as the read gives, up
      to 100000 bytes, the room and what is left; nothing at its end. */
  lemma ReadsExactly(c: Config, s: Course, ev: Event)
    requires Sane(c, s)
    ensures
      var p, (r, n) := s.pipe, Fed(c, s, ev);
      var room, rest := c.bufferSize - (p.consumed - s.sent), |c.input| - p.consumed;
      var wants := !p.inputEof && room > 0 && ev.readable;
      && r == s.(pipe := p.(consumed := p.consumed + n, inputEof := p.inputEof || (wants && n == 0)))
      && (!wants || rest == 0 ==> n == 0)
      && (wants && rest > 0 ==>
            && 1 <= n <= rest && n <= room && n <= 100000
            && (n == ev.read || n == rest || n == room || n == 100000 || (n == 1 && ev.read == 0))
            && (ev.read > 0 ==> n <= ev.read))
  {
  }

  /** What the inner loop does next. Between stretches, with room for a header in the volume, it starts the
      longest stretch that its size field, the buffered piece and the volume allow; with less room than that it
      closes the volume; within a stretch it sends at least a byte, of this stretch and this volume, if the write
      takes any. */
  lemma WritesExactly(c: Config, s: Course, writes: seq<nat>, w: nat, total: nat, bytesRead: nat)
    requires Sane(c, s) && s.sent < s.pipe.consumed && w <= |writes|
    ensures
      var p, r := s.pipe, Send(c, s, writes, w, total, bytesRead);
      var room := (c.volumeSize - p.amount) % 0x1_0000_0000_0000_0000;
      var buffered, straight := p.consumed - s.sent, c.bufferSize + 1 - s.sent % (c.bufferSize + 1);
      && (p.left == 0 && room >= 3 ==>
            var n := r.pipe.left;
            && n <= 0xffff && n <= buffered && n <= straight && n <= room - 3
            && (n == 0xffff || n == buffered || n == straight || n == room - 3)
            && r.sent == s.sent && r.pipe.output == p.output + [n / 256, n % 256, 4]
            && r.pipe.status == p.status && r.pipe.volumes == p.volumes)
      && (room < 3 && p.left == 0 ==>
            && r.sent == s.sent && r.pipe.status == Dying
            && r.pipe.volumes
                 == p.volumes + [p.output + Encode(Stretch(5, Md5.Digest(c.f, c.input[..s.sent]))) + [0, 0, 3]])
      && (p.left > 0 && room > 0 ==> (r.sent == s.sent <==> w == |writes| || writes[w] == 0))
      && (p.left > 0 && room > 0 && r.sent == s.sent ==> r == s)
  {
    if s.pipe.left == 0 && LeftIn(c.volumeSize, s.pipe.amount) >= 3 {
      StartsLongest(c, s);
    }
    EndBytes();
    hide Encode, Md5.Digest, Started, Header;
    if s.pipe.left > 0 && LeftIn(c.volumeSize, s.pipe.amount) > 0 && w < |writes| && writes[w] > 0 {
      SendsSome(c, s, writes, w, total, bytesRead);
    }
  }

  lemma EndBytes()
    ensures Encode(END) == [0, 0, 3]
  {
  }

  lemma StartsLongest(c: Config, s: Course)
    requires Sane(c, s) && s.sent < s.pipe.consumed && Starting(c, s.pipe)
    ensures
      var p, r := s.pipe, Started(c, s.pipe, Reach(c, s));
      var room, n := LeftIn(c.volumeSize, p.amount), r.left;
      var buffered, straight := p.consumed - s.sent, c.bufferSize + 1 - s.sent % (c.bufferSize + 1);
      && n <= 0xffff && n <= buffered && n <= straight && n <= room - 3
      && (n == 0xffff || n == buffered || n == straight || n == room - 3)
      && r.output == p.output + [n / 256, n % 256, 4] && r.status == p.status && r.volumes == p.volumes
  {
    var n := StretchSize(Reach(c, s), LeftIn(c.volumeSize, s.pipe.amount));
    assert Header(DATA, n) == [n / 256, n % 256, 4];
  }

  lemma {:induction false} SendGrows(c: Config, s: Course, writes: seq<nat>, w: nat, total: nat, bytesRead: nat)
    requires Sane(c, s) && s.sent < s.pipe.consumed && w <= |writes|
    ensures Send(c, s, writes, w, total, bytesRead).sent >= s.sent
    decreases |writes| - w
  {
    hide Sendable, Clamp, LeftIn, Md5.Digest, Encode, Header, Reach, Started, Starting, ClosedVolume;
    if !Starting(c, s.pipe) && Sendable(c, s) > 0 && w < |writes| && writes[w] > 0 {
      var n := Clamp(writes[w], 1, Sendable(c, s));
      var s' := Wrote(c, s, n);
      if total + n < bytesRead && s'.sent < s'.pipe.consumed {
        SendGrows(c, s', writes, w + 1, total + n, bytesRead);
      }
    }
  }

  lemma SendsSome(c: Config, s: Course, writes: seq<nat>, w: nat, total: nat, bytesRead: nat)
    requires Sane(c, s) && s.sent < s.pipe.consumed && w < |writes| && writes[w] > 0
    requires s.pipe.left > 0 && LeftIn(c.volumeSize, s.pipe.amount) > 0
    ensures Send(c, s, writes, w, total, bytesRead).sent > s.sent
  {
    hide Md5.Digest, Encode, Header, Started, ClosedVolume, Reach, LeftIn;
    var n := Clamp(writes[w], 1, Sendable(c, s));
    var s' := Wrote(c, s, n);
    if total + n < bytesRead && s'.sent < s'.pipe.consumed {
      SendGrows(c, s', writes, w + 1, total + n, bytesRead);
    }
  }
}
