/** What joinpipe makes of any media whatever: the stretches it meets, where it changes media, and when it
    ends well. Kinds are numbers here: 1 the session, 2 the volume number, 3 the end of a volume, 4 data,
    5 the running checksum, 7 the end of the session. */
module JoinTrail {
  import opened Bytes
  import opened Stretches
  import Joinpipe
  import Md5

  /** A stretch met at a place of a volume; it stays if the next is read behind it, and else the next volume
      is opened. */
  datatype Met = Met(volume: nat, pos: nat, kind: byte, payload: seq<byte>, stays: bool)

  /** Where the stretch behind the first i is read. */
  function Place(t: seq<Met>, i: nat): (p: (nat, nat))
    requires i <= |t|
  {
    if i == 0 then (0, 0)
    else if t[i - 1].stays then (t[i - 1].volume, t[i - 1].pos + 3 + |t[i - 1].payload|)
    else (t[i - 1].volume + 1, 0)
  }

  /** The data of the first i stretches. */
  function DataOf(t: seq<Met>, i: nat): (d: seq<byte>)
    requires i <= |t|
  {
    if i == 0 then [] else DataOf(t, i - 1) + if t[i - 1].kind == 4 then t[i - 1].payload else []
  }

  /** The session they name first. */
  function SessionOf(t: seq<Met>, i: nat): (d: seq<byte>)
    requires i <= |t|
  {
    if i == 0 then []
    else if SessionOf(t, i - 1) == [] && t[i - 1].kind == 1 then t[i - 1].payload
    else SessionOf(t, i - 1)
  }

  /** How many volume numbers among them were the expected one. */
  function VolumesOf(t: seq<Met>, i: nat): (n: nat)
    requires i <= |t|
  {
    if i == 0 then 0 else VolumesOf(t, i - 1) + if t[i - 1].kind == 2 && t[i - 1].stays then 1 else 0
  }

  /** The stretch stands on its volume: two bytes of size, the kind, the payload. */
  predicate Stands(files: seq<seq<byte>>, m: Met)
  {
    && m.volume < |files| && m.pos + 3 + |m.payload| <= |files[m.volume]|
    && 256 * files[m.volume][m.pos] as int + files[m.volume][m.pos + 1] as int == |m.payload|
    && files[m.volume][m.pos + 2] == m.kind
    && files[m.volume][m.pos + 3..m.pos + 3 + |m.payload|] == m.payload
  }

  /** The volume is left at its end, for another session's volume, and for a number other than that of the
      volumes so far; a number of fewer than two bytes is completed by what was read before. */
  predicate Moves(t: seq<Met>, i: nat)
    requires i < |t|
  {
    var m := t[i];
    && (m.kind == 3 ==> !m.stays)
    && (m.kind == 1 ==> (!m.stays <==> SessionOf(t, i) != [] && SessionOf(t, i) != m.payload))
    && (m.kind == 2 && |m.payload| >= 2 ==>
          (!m.stays <==> 256 * m.payload[0] as int + m.payload[1] as int != VolumesOf(t, i)))
    && (m.kind != 1 && m.kind != 2 && m.kind != 3 ==> m.stays)
  }

  /** joinpipe fails here: no data in a data stretch, or a checksum other than that of the data so far. */
  ghost predicate Fatal(f: Md5.Compress, t: seq<Met>, i: nat)
    requires i < |t|
  {
    (t[i].kind == 4 && t[i].payload == []) || (t[i].kind == 5 && t[i].payload != Md5.Digest(f, DataOf(t, i)))
  }

  ghost predicate MetAt(files: seq<seq<byte>>, t: seq<Met>, i: nat)
    requires i < |t|
  {
    (t[i].volume, t[i].pos) == Place(t, i) && Stands(files, t[i]) && Moves(t, i)
  }

  /** Stretches met one after the other; before the last, none ends the session or is fatal. */
  ghost predicate Trail(f: Md5.Compress, files: seq<seq<byte>>, t: seq<Met>)
  {
    && (forall i :: 0 <= i < |t| ==> MetAt(files, t, i))
    && (forall i :: 0 <= i < |t| - 1 ==> t[i].kind != 7 && !Fatal(f, t, i))
  }

  /** There is no whole stretch at this place. */
  predicate Nothing(files: seq<seq<byte>>, p: (nat, nat))
  {
    || p.0 >= |files| || p.1 + 3 > |files[p.0]|
    || p.1 + 3 + 256 * files[p.0][p.1] as int + files[p.0][p.1 + 1] as int > |files[p.0]|
  }

  /** The trail tells joinpipe's variables. */
  ghost predicate Told(f: Md5.Compress, files: seq<seq<byte>>, t: seq<Met>, j: Joiner)
  {
    && Trail(f, files, t) && j.out == DataOf(t, |t|) && j.uuid == SessionOf(t, |t|) && j.numVolumes == VolumesOf(t, |t|)
    && (t != [] ==> t[|t| - 1].kind != 7 && !Fatal(f, t, |t| - 1))
  }

  lemma MoreSame(t: seq<Met>, m: Met, i: nat)
    requires i <= |t|
    ensures DataOf(t + [m], i) == DataOf(t, i) && SessionOf(t + [m], i) == SessionOf(t, i)
    ensures VolumesOf(t + [m], i) == VolumesOf(t, i) && Place(t + [m], i) == Place(t, i)
  {
    if i > 0 {
      MoreSame(t, m, i - 1);
    }
  }

  lemma TrailMore(f: Md5.Compress, files: seq<seq<byte>>, t: seq<Met>, m: Met)
    requires Trail(f, files, t) && (t != [] ==> t[|t| - 1].kind != 7 && !Fatal(f, t, |t| - 1))
    requires (m.volume, m.pos) == Place(t, |t|) && Stands(files, m) && Moves(t + [m], |t|)
    ensures Trail(f, files, t + [m])
  {
    hide Stands, Place, DataOf, SessionOf, VolumesOf;
    forall i | 0 <= i <= |t|
      ensures MetAt(files, t + [m], i)
      ensures i < |t| ==> (t + [m])[i].kind != 7 && !Fatal(f, t + [m], i)
    {
      MoreSame(t, m, i);
      if i < |t| {
        assert MetAt(files, t, i);
      }
    }
  }

  /** One stretch. */
  lemma TrailStep(f: Md5.Compress, files: seq<seq<byte>>, t: seq<Met>, j: Joiner, s: Stretch, next: nat)
    returns (m: Met)
    requires Told(f, files, t, j) && j.status.Running? && Place(t, |t|).0 < |files|
    requires ReadStretch(files[Place(t, |t|).0], Place(t, |t|).1) == Some((s, next))
    ensures
      var (k, pos), j' := Place(t, |t|), Take(f, j, s);
      && m == Met(k, pos, s.kind, s.payload, !Leaves(j, s)) && Trail(f, files, t + [m]) && next == pos + 3 + |s.payload|
      && j'.out == DataOf(t + [m], |t| + 1)
      && (j'.status.Running? ==> Told(f, files, t + [m], j'))
      && (j'.status.Finished? <==> m.kind == 7) && (j'.status.Failed? <==> Fatal(f, t + [m], |t|))
  {
    var (k, pos) := Place(t, |t|);
    m := Met(k, pos, s.kind, s.payload, !Leaves(j, s));
    StretchThere(files, k, pos, s, next);
    ToldMoves(f, files, t, j, s, m);
    ToldTakes(f, files, t, j, s, m);
    hide Place, ReadStretch, Stands, Moves, Leaves, Overlay, Take, Fatal, DataOf, SessionOf, VolumesOf;
    TrailMore(f, files, t, m);
    hide Trail;
  }

  lemma ToldTakes(f: Md5.Compress, files: seq<seq<byte>>, t: seq<Met>, j: Joiner, s: Stretch, m: Met)
    requires Told(f, files, t, j) && j.status.Running?
    requires m.kind == s.kind && m.payload == s.payload && m.stays == !Leaves(j, s)
    ensures
      var j', n := Take(f, j, s), |t|;
      && j'.out == DataOf(t + [m], n + 1)
      && (j'.status.Running? ==> j'.uuid == SessionOf(t + [m], n + 1) && j'.numVolumes == VolumesOf(t + [m], n + 1))
      && (j'.status.Finished? <==> m.kind == 7) && (j'.status.Failed? <==> Fatal(f, t + [m], n))
  {
    MoreSame(t, m, |t|);
    LastMore(t, m);
    hide Trail, Md5.Digest, Overlay, DataOf, SessionOf, VolumesOf, NumberOf;
  }

  lemma LastMore(t: seq<Met>, m: Met)
    ensures
      var more, n := t + [m], |t|;
      && DataOf(more, n + 1) == DataOf(t, n) + (if m.kind == 4 then m.payload else [])
      && SessionOf(more, n + 1) == (if SessionOf(t, n) == [] && m.kind == 1 then m.payload else SessionOf(t, n))
      && VolumesOf(more, n + 1) == VolumesOf(t, n) + (if m.kind == 2 && m.stays then 1 else 0)
  {
    MoreSame(t, m, |t|);
  }

  lemma ToldMoves(f: Md5.Compress, files: seq<seq<byte>>, t: seq<Met>, j: Joiner, s: Stretch, m: Met)
    requires Told(f, files, t, j) && m.kind == s.kind && m.payload == s.payload && m.stays == !Leaves(j, s)
    ensures Moves(t + [m], |t|)
  {
    MoreSame(t, m, |t|);
    hide Trail, Fatal, DataOf, SessionOf, VolumesOf;
  }

  lemma StretchThere(files: seq<seq<byte>>, k: nat, pos: nat, s: Stretch, next: nat)
    requires k < |files| && ReadStretch(files[k], pos) == Some((s, next))
    ensures forall stays :: Stands(files, Met(k, pos, s.kind, s.payload, stays))
    ensures next == pos + 3 + |s.payload|
  {
  }

  lemma {:induction false} TrailOn(f: Md5.Compress, files: seq<seq<byte>>, t: seq<Met>, j: Joiner)
    returns (all: seq<Met>)
    requires Told(f, files, t, j) && j.status.Running?
    ensures
      var (k, pos) := Place(t, |t|);
      var r := Join(f, files, k, pos, j);
      && Trail(f, files, all) && r.out == DataOf(all, |all|)
      && (r.status.Finished? ==> all != [] && all[|all| - 1].kind == 7)
      && (!r.status.Finished? ==>
            && r.status.Failed? && (all != [] ==> all[|all| - 1].kind != 7)
            && ((all != [] && Fatal(f, all, |all| - 1)) || Nothing(files, Place(all, |all|))))
    decreases |files| - Place(t, |t|).0, Left(files, Place(t, |t|).0, Place(t, |t|).1)
  {
    hide Md5.Digest, Take, Leaves, Trail, DataOf, SessionOf, VolumesOf, Fatal;
    var (k, pos) := Place(t, |t|);
    Joinpipe.JoinUnfold(f, files, k, pos, j);
    if k >= |files| || ReadStretch(files[k], pos).None? {
      return t;
    }
    var (s, next) := ReadStretch(files[k], pos).value;
    var m := TrailStep(f, files, t, j, s, next);
    all := t + [m];
    var j' := Take(f, j, s);
    if j'.status.Running? {
      all := TrailOn(f, files, all, j');
    }
  }

  /** The whole run of joinpipe on any media: a trail of stretches from the beginning of the first volume on.
      What is written is their data, in order. joinpipe ends well at an end of session, every checksum on the
      way having been met; else at a fatal stretch, or where no whole stretch is left. */
  lemma JoinsTrail(f: Md5.Compress, files: seq<seq<byte>>, buffer0: (byte, byte)) returns (t: seq<Met>)
    ensures
      var j := Join(f, files, 0, 0, Joinpipe.Start(buffer0));
      && Trail(f, files, t) && j.out == DataOf(t, |t|)
      && (j.status.Finished? <==> t != [] && t[|t| - 1].kind == 7)
      && (!j.status.Finished? ==>
            j.status.Failed? && ((t != [] && Fatal(f, t, |t| - 1)) || Nothing(files, Place(t, |t|))))
  {
    hide Md5.Digest, Join, Nothing, Fatal;
    t := TrailOn(f, files, [], Joinpipe.Start(buffer0));
  }
}
