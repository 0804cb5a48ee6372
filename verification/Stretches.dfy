/** The stretch format shared by splitpipe and joinpipe, and what joinpipe does with stretches. */
module Stretches {
  import opened Bytes
  import Md5

  const SESSION_NAME: byte := 0
  const SESSION_UUID: byte := 1
  const VOLUME_NUMBER: byte := 2
  const VOLUME_EOF: byte := 3
  const DATA: byte := 4
  const MD5_CHECKSUM: byte := 5
  const SESSION_EOF: byte := 7
  const VOLUME_DATE: byte := 8

  /** A stretch; its length is a 16-bit number. */
  datatype Stretch = Stretch(kind: byte, payload: seq<byte>)

  predicate Fits(s: Stretch)
  {
    |s.payload| < 0x10000
  }

  /** stretchHeader: the size in network order, then the type. */
  function Header(kind: byte, size: u16): (h: seq<byte>)
    ensures |h| == 3
  {
    U16(size) + [kind]
  }

  function Encode(s: Stretch): (r: seq<byte>)
    requires Fits(s)
    ensures |r| == 3 + |s.payload|
  {
    Header(s.kind, |s.payload|) + s.payload
  }

  predicate AllFit(ss: seq<Stretch>)
  {
    forall i :: 0 <= i < |ss| ==> Fits(ss[i])
  }

  /** The bytes of the first n stretches. */
  function EncodeAll(ss: seq<Stretch>, n: nat): (r: seq<byte>)
    requires n <= |ss| && AllFit(ss)
  {
    if n == 0 then [] else EncodeAll(ss, n - 1) + Encode(ss[n - 1])
  }

  lemma {:induction false} EncodePrefix(ss: seq<Stretch>, more: seq<Stretch>, n: nat)
    requires n <= |ss| && AllFit(ss + more) && AllFit(ss)
    ensures EncodeAll(ss + more, n) == EncodeAll(ss, n)
  {
    if n > 0 {
      EncodePrefix(ss, more, n - 1);
      assert (ss + more)[n - 1] == ss[n - 1];
    }
  }

  lemma EncodeSnoc(ss: seq<Stretch>, s: Stretch)
    requires AllFit(ss) && Fits(s)
    ensures AllFit(ss + [s]) && EncodeAll(ss + [s], |ss| + 1) == EncodeAll(ss, |ss|) + Encode(s)
  {
    EncodePrefix(ss, [s], |ss|);
    var more := ss + [s];
    EncodeStep(more, |ss|);
    hide Encode, EncodeAll;
    assert more[|ss|] == s;
  }

  lemma EncodeStep(ss: seq<Stretch>, n: nat)
    requires n < |ss| && AllFit(ss)
    ensures EncodeAll(ss, n + 1) == EncodeAll(ss, n) + Encode(ss[n])
  {
    hide Encode;
  }

  // ---------------------------------------------------------------- what joinpipe does

  datatype Status = Running | Finished | Failed

  /** joinpipe's variables; buffer holds the first two bytes of its read buffer, which a short
      VolumeNumber stretch does not overwrite. */
  datatype Joiner = Joiner(uuid: seq<byte>, numVolumes: nat, buffer: (byte, byte), out: seq<byte>, status: Status)

  function Overlay(payload: seq<byte>, buffer: (byte, byte)): (b: (byte, byte))
  {
    (if |payload| > 0 then payload[0] else buffer.0, if |payload| > 1 then payload[1] else buffer.1)
  }

  /** The stretch makes joinpipe close this volume and open the next: the end of the volume, a
      volume of another session, or a volume out of order. */
  predicate Leaves(j: Joiner, s: Stretch)
  {
    || s.kind == VOLUME_EOF
    || (s.kind == SESSION_UUID && j.uuid != [] && j.uuid != s.payload)
    || (s.kind == VOLUME_NUMBER && NumberOf(j, s) != j.numVolumes)
  }

  function NumberOf(j: Joiner, s: Stretch): (n: nat)
  {
    var b := Overlay(s.payload, j.buffer);
    Get16(b.0, b.1)
  }

  /** The effect of one stretch. An empty Data stretch fails: writen returns the size, and 0 is
      taken for end of file on standard output. */
  function Take(f: Md5.Compress, j0: Joiner, s: Stretch): (j: Joiner)
    requires j0.status.Running?
  {
    var j := j0.(buffer := Overlay(s.payload, j0.buffer));
    if s.kind == SESSION_UUID then (if j.uuid == [] then j.(uuid := s.payload) else j)
    else if s.kind == VOLUME_NUMBER then (if Leaves(j0, s) then j else j.(numVolumes := j.numVolumes + 1))
    else if s.kind == DATA then (if s.payload == [] then j.(status := Failed) else j.(out := j.out + s.payload))
    else if s.kind == SESSION_EOF then j.(status := Finished)
    else if s.kind == MD5_CHECKSUM then (if Md5.Digest(f, j.out) == s.payload then j else j.(status := Failed))
    else j
  }

  /** One stretch read from a volume, and the position after it; None at the end of the file. */
  function ReadStretch(file: seq<byte>, pos: nat): (r: Option<(Stretch, nat)>)
    ensures r.Some? ==> pos < r.value.1 <= |file| && Fits(r.value.0)
  {
    if pos + 3 > |file| then None
    else
      var size := Get16(file[pos], file[pos + 1]) as int;
      if pos + 3 + size > |file| then None
      else Some((Stretch(file[pos + 2], file[pos + 3..pos + 3 + size]), pos + 3 + size))
  }

  function Left(files: seq<seq<byte>>, k: nat, pos: nat): (n: nat)
  {
    if k < |files| && pos <= |files[k]| then |files[k]| - pos else 0
  }

  /** joinpipe from a position of the k-th opened volume on. files lists what each open shows. */
  function Join(f: Md5.Compress, files: seq<seq<byte>>, k: nat, pos: nat, j: Joiner): (r: Joiner)
    requires j.status.Running?
    decreases |files| - k, Left(files, k, pos)
  {
    hide Take, ReadStretch, Leaves;
    if k >= |files| then j.(status := Failed)
    else match ReadStretch(files[k], pos)
      case None => j.(status := Failed)
      case Some((s, next)) =>
        var j' := Take(f, j, s);
        if !j'.status.Running? then j'
        else if Leaves(j, s) then Join(f, files, k + 1, 0, j')
        else Join(f, files, k, next, j')
  }

  lemma ReadBack(file: seq<byte>, before: seq<byte>, s: Stretch, rest: seq<byte>)
    requires Fits(s) && file == before + Encode(s) + rest
    ensures ReadStretch(file, |before|) == Some((s, |before| + |Encode(s)|))
  {
    var pos, n := |before|, |s.payload|;
    Get16Inverts(n);
    assert file[pos] == Encode(s)[0] == U16(n)[0];
    assert file[pos + 1] == Encode(s)[1] == U16(n)[1];
    assert file[pos + 2] == Encode(s)[2] == s.kind;
    assert file[pos + 3..pos + 3 + n] == s.payload;
  }

  /** joinpipe's state after the first n stretches of a volume. */
  function Walk(f: Md5.Compress, j: Joiner, ss: seq<Stretch>, n: nat): (r: Joiner)
    requires n <= |ss|
  {
    if n == 0 then j
    else
      var j' := Walk(f, j, ss, n - 1);
      if j'.status.Running? then Take(f, j', ss[n - 1]) else j'
  }

  lemma {:induction false} WalkPrefix(f: Md5.Compress, j: Joiner, ss: seq<Stretch>, more: seq<Stretch>, n: nat)
    requires n <= |ss|
    ensures Walk(f, j, ss + more, n) == Walk(f, j, ss, n)
  {
    if n > 0 {
      WalkPrefix(f, j, ss, more, n - 1);
    }
  }

  /** None of the stretches makes joinpipe leave the volume while it is running. */
  ghost predicate Stays(f: Md5.Compress, j: Joiner, ss: seq<Stretch>)
  {
    forall n :: 0 <= n < |ss| ==> Walk(f, j, ss, n).status.Running? ==> !Leaves(Walk(f, j, ss, n), ss[n])
  }

  lemma WalkStep(f: Md5.Compress, j: Joiner, ss: seq<Stretch>, n: nat)
    requires n < |ss|
    ensures Walk(f, j, ss, n + 1)
         == var jn := Walk(f, j, ss, n); (if jn.status.Running? then Take(f, jn, ss[n]) else jn)
  {
  }

  lemma StaysSnoc(f: Md5.Compress, j: Joiner, ss: seq<Stretch>, s: Stretch)
    requires Stays(f, j, ss)
    requires var j' := Walk(f, j, ss, |ss|); j'.status.Running? ==> !Leaves(j', s)
    ensures Stays(f, j, ss + [s])
    ensures Walk(f, j, ss + [s], |ss| + 1)
         == var j' := Walk(f, j, ss, |ss|); (if j'.status.Running? then Take(f, j', s) else j')
  {
    hide Walk, Take, Leaves;
    forall n | 0 <= n <= |ss|
      ensures Walk(f, j, ss + [s], n) == Walk(f, j, ss, n)
    {
      WalkPrefix(f, j, ss, [s], n);
    }
    WalkStep(f, j, ss + [s], |ss|);
  }

  lemma JoinStep(f: Md5.Compress, files: seq<seq<byte>>, k: nat, pos: nat, j: Joiner, s: Stretch, next: nat)
    requires k < |files| && j.status.Running? && ReadStretch(files[k], pos) == Some((s, next)) && !Leaves(j, s)
    ensures Join(f, files, k, pos, j)
         == var j' := Take(f, j, s); (if j'.status.Running? then Join(f, files, k, next, j') else j')
  {
    hide ReadStretch, Take, Leaves;
  }

  lemma ReadAt(file: seq<byte>, ss: seq<Stretch>, n: nat)
    requires n < |ss| && AllFit(ss) && EncodeAll(ss, |ss|) <= file
    ensures ReadStretch(file, |EncodeAll(ss, n)|) == Some((ss[n], |EncodeAll(ss, n + 1)|))
  {
    EncodeUpTo(ss, n + 1);
    var before, rest := EncodeAll(ss, n), file[|EncodeAll(ss, n + 1)|..];
    assert EncodeAll(ss, n + 1) == before + Encode(ss[n]);
    hide EncodeAll, Encode, ReadStretch;
    assert file == before + Encode(ss[n]) + rest;
    ReadBack(file, before, ss[n], rest);
  }

  /** Reading the stretches of a volume from the n-th on, with anything after them. */
  lemma {:induction false} JoinWalk(f: Md5.Compress, files: seq<seq<byte>>, k: nat, j: Joiner, ss: seq<Stretch>, n: nat)
    requires k < |files| && n <= |ss| && AllFit(ss) && EncodeAll(ss, |ss|) <= files[k]
    requires Stays(f, j, ss) && Walk(f, j, ss, n).status.Running?
    ensures Join(f, files, k, |EncodeAll(ss, n)|, Walk(f, j, ss, n))
         == var end := Walk(f, j, ss, |ss|);
            (if end.status.Running? then Join(f, files, k, |EncodeAll(ss, |ss|)|, end) else end)
    decreases |ss| - n
  {
    hide EncodeAll, Take, Leaves, ReadStretch, AllFit, Walk, Join;
    if n < |ss| {
      var jn := Walk(f, j, ss, n);
      ReadAt(files[k], ss, n);
      JoinStep(f, files, k, |EncodeAll(ss, n)|, jn, ss[n], |EncodeAll(ss, n + 1)|);
      WalkStep(f, j, ss, n);
      if Walk(f, j, ss, n + 1).status.Running? {
        JoinWalk(f, files, k, j, ss, n + 1);
      } else {
        WalkStuck(f, j, ss, n + 1, |ss|);
      }
    }
  }

  lemma {:induction false} WalkStuck(f: Md5.Compress, j: Joiner, ss: seq<Stretch>, n: nat, m: nat)
    requires n <= m <= |ss| && !Walk(f, j, ss, n).status.Running?
    ensures Walk(f, j, ss, m) == Walk(f, j, ss, n)
  {
    if n < m {
      WalkStuck(f, j, ss, n, m - 1);
    }
  }

  lemma {:induction false} EncodeUpTo(ss: seq<Stretch>, n: nat)
    requires n <= |ss| && AllFit(ss)
    ensures EncodeAll(ss, n) <= EncodeAll(ss, |ss|)
    decreases |ss| - n
  {
    if n < |ss| {
      EncodeUpTo(ss, n + 1);
    }
  }

  const END: Stretch := Stretch(VOLUME_EOF, [])

  /** joinpipe's state after the first k volumes, given by their stretches before VolumeEOF. */
  function After(f: Md5.Compress, j: Joiner, bodies: seq<seq<Stretch>>, k: nat): (r: Joiner)
    requires k <= |bodies|
  {
    if k == 0 then j
    else
      var j' := After(f, j, bodies, k - 1);
      if j'.status.Running? then Walk(f, j', bodies[k - 1], |bodies[k - 1]|) else j'
  }

  lemma {:induction false} AfterPrefix(f: Md5.Compress, j: Joiner, bodies: seq<seq<Stretch>>, more: seq<seq<Stretch>>,
                                       k: nat)
    requires k <= |bodies|
    ensures After(f, j, bodies + more, k) == After(f, j, bodies, k)
  {
    if k > 0 {
      AfterPrefix(f, j, bodies, more, k - 1);
    }
  }

  /** A closed volume as a file: its stretches, then VolumeEOF; no stretch leaves it early. */
  ghost predicate ClosedOne(f: Md5.Compress, j: Joiner, body: seq<Stretch>, volume: seq<byte>)
  {
    && AllFit(body) && volume == EncodeAll(body, |body|) + Encode(END)
    && (j.status.Running? ==> Stays(f, j, body))
  }

  ghost predicate Closed(f: Md5.Compress, j: Joiner, bodies: seq<seq<Stretch>>, volumes: seq<seq<byte>>)
  {
    && |volumes| == |bodies|
    && forall k :: 0 <= k < |bodies| ==> ClosedOne(f, After(f, j, bodies, k), bodies[k], volumes[k])
  }

  lemma ClosedSnoc(f: Md5.Compress, j: Joiner, bodies: seq<seq<Stretch>>, volumes: seq<seq<byte>>, body: seq<Stretch>,
                   volume: seq<byte>)
    requires Closed(f, j, bodies, volumes) && ClosedOne(f, After(f, j, bodies, |bodies|), body, volume)
    ensures Closed(f, j, bodies + [body], volumes + [volume])
  {
    hide ClosedOne, After, Walk;
    forall k | 0 <= k <= |bodies|
      ensures ClosedOne(f, After(f, j, bodies + [body], k), (bodies + [body])[k], (volumes + [volume])[k])
    {
      AfterPrefix(f, j, bodies, [body], k);
      if k < |bodies| {
        assert ClosedOne(f, After(f, j, bodies, k), bodies[k], volumes[k]);
      }
    }
  }

  lemma AfterSnoc(f: Md5.Compress, j: Joiner, bodies: seq<seq<Stretch>>, body: seq<Stretch>, last: Joiner)
    requires last == After(f, j, bodies, |bodies|)
    ensures After(f, j, bodies + [body], |bodies| + 1)
         == if last.status.Running? then Walk(f, last, body, |body|) else last
  {
    hide After, Walk;
    AfterPrefix(f, j, bodies, [body], |bodies|);
    AfterStep(f, j, bodies + [body], |bodies|);
  }

  lemma AfterStep(f: Md5.Compress, j: Joiner, bodies: seq<seq<Stretch>>, k: nat)
    requires k < |bodies|
    ensures After(f, j, bodies, k + 1)
         == var j' := After(f, j, bodies, k); (if j'.status.Running? then Walk(f, j', bodies[k], |bodies[k]|) else j')
  {
  }

  /** Each opened file begins with the volume written; anything may follow. */
  predicate Shows(files: seq<seq<byte>>, volumes: seq<seq<byte>>)
  {
    |volumes| <= |files| && forall k :: 0 <= k < |volumes| ==> volumes[k] <= files[k]
  }

  lemma JoinLeave(f: Md5.Compress, files: seq<seq<byte>>, k: nat, pos: nat, j: Joiner, next: nat)
    requires k < |files| && j.status.Running? && ReadStretch(files[k], pos) == Some((END, next))
    ensures Join(f, files, k, pos, j) == Join(f, files, k + 1, 0, j)
  {
    assert Take(f, j, END) == j;
  }

  lemma ReadEnd(file: seq<byte>, before: seq<byte>)
    requires before + Encode(END) <= file
    ensures ReadStretch(file, |before|) == Some((END, |before| + 3)) && before <= file
  {
    hide ReadStretch, Encode;
    var rest := file[|before + Encode(END)|..];
    assert file == before + Encode(END) + rest;
    ReadBack(file, before, END, rest);
  }

  /** One closed volume. */
  lemma JoinVolume(f: Md5.Compress, files: seq<seq<byte>>, k: nat, j: Joiner, body: seq<Stretch>)
    requires k < |files| && AllFit(body) && j.status.Running? && Stays(f, j, body)
    requires EncodeAll(body, |body|) + Encode(END) <= files[k]
    ensures Join(f, files, k, 0, j)
         == var end := Walk(f, j, body, |body|); (if end.status.Running? then Join(f, files, k + 1, 0, end) else end)
  {
    WalkZero(f, j, body);
    hide *;
    var n := |EncodeAll(body, |body|)|;
    ReadEnd(files[k], EncodeAll(body, |body|));
    JoinWalk(f, files, k, j, body, 0);
    var end := Walk(f, j, body, |body|);
    if end.status.Running? {
      JoinLeave(f, files, k, n, end, n + 3);
    }
  }

  lemma WalkZero(f: Md5.Compress, j: Joiner, ss: seq<Stretch>)
    ensures Walk(f, j, ss, 0) == j
    ensures AllFit(ss) ==> EncodeAll(ss, 0) == []
  {
  }

  /** Reading closed volumes one after the other. */
  lemma {:induction false} JoinVolumes(f: Md5.Compress, files: seq<seq<byte>>, j: Joiner, bodies: seq<seq<Stretch>>,
                                       volumes: seq<seq<byte>>, k: nat)
    requires Closed(f, j, bodies, volumes) && Shows(files, volumes) && k <= |bodies| && j.status.Running?
    ensures Join(f, files, 0, 0, j)
         == var jk := After(f, j, bodies, k); (if jk.status.Running? then Join(f, files, k, 0, jk) else jk)
  {
    hide *;
    if k == 0 {
      AfterNone(f, j, bodies);
    } else {
      JoinVolumes(f, files, j, bodies, volumes, k - 1);
      AfterStep(f, j, bodies, k - 1);
      var jk := After(f, j, bodies, k - 1);
      if jk.status.Running? {
        ClosedShown(f, files, j, bodies, volumes, k - 1);
        JoinVolume(f, files, k - 1, jk, bodies[k - 1]);
      }
    }
  }

  lemma AfterNone(f: Md5.Compress, j: Joiner, bodies: seq<seq<Stretch>>)
    ensures After(f, j, bodies, 0) == j
  {
  }

  /** What joinpipe meets on the k-th medium. */
  lemma ClosedShown(f: Md5.Compress, files: seq<seq<byte>>, j: Joiner, bodies: seq<seq<Stretch>>,
                    volumes: seq<seq<byte>>, k: nat)
    requires Closed(f, j, bodies, volumes) && Shows(files, volumes)
    requires k < |bodies| && After(f, j, bodies, k).status.Running?
    ensures k < |files| && AllFit(bodies[k]) && Stays(f, After(f, j, bodies, k), bodies[k])
    ensures EncodeAll(bodies[k], |bodies[k]|) + Encode(END) <= files[k]
  {
    hide After, Walk, AllFit, Stays, EncodeAll, Encode;
    assert ClosedOne(f, After(f, j, bodies, k), bodies[k], volumes[k]);
    assert volumes[k] <= files[k];
  }

  /** The last volume ends the session. */
  lemma JoinLast(f: Md5.Compress, files: seq<seq<byte>>, k: nat, j: Joiner, body: seq<Stretch>)
    requires k < |files| && AllFit(body) && j.status.Running? && Stays(f, j, body)
    requires EncodeAll(body, |body|) <= files[k] && !Walk(f, j, body, |body|).status.Running?
    ensures Join(f, files, k, 0, j) == Walk(f, j, body, |body|)
  {
    WalkZero(f, j, body);
    hide *;
    JoinWalk(f, files, k, j, body, 0);
  }
}
